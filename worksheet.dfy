/**
 * The report sheet: a copy of the template's active sheet, its template merges at
 * and below the first data row removed, the run's date and time in the header, one
 * styled row per classified vehicle, and a live count formula.
 */
module Worksheet {
  import opened Wrappers
  import opened Telemetry
  import Decimal

  // Layout of the template, 1-based as in the spreadsheet.
  const HeaderRow: int := 2
  const DateCol: int := 3     // C2
  const TimeCol: int := 6     // F2
  const CountCol: int := 8    // H2
  const StartRow: int := 7
  const UnitCol: int := 1
  const PlaceFirst: int := 2
  const PlaceLast: int := 8
  const StatusCol: int := 9

  datatype Fill = PlainFill | RedFill | GreenFill

  datatype Font = PlainFont | RedFont | GreenFont

  /** A cell: its value (None when empty), whether it has the thin box border, its fill and font. */
  datatype Cell = Cell(value: Option<string>, border: bool, fill: Fill, font: Font)

  /** An empty cell with the default style. */
  const Blank: Cell := Cell(None, false, PlainFill, PlainFont)

  /** A merged range, inclusive at both ends. */
  datatype Range = Range(minRow: int, minCol: int, maxRow: int, maxCol: int)

  /** A cell that a merged range covers other than its top-left anchor. */
  predicate Hidden(rg: Range, r: int, c: int)
  {
    rg.minRow <= r <= rg.maxRow && rg.minCol <= c <= rg.maxCol && (r, c) != (rg.minRow, rg.minCol)
  }

  /** A cell some range of `ranges` hides; openpyxl holds a value-less placeholder there. */
  predicate HiddenBy(ranges: set<Range>, r: int, c: int)
  {
    exists rg :: rg in ranges && Hidden(rg, r, c)
  }

  /** The template merges the report removes: those starting at or below row `start`. */
  function MergesFrom(ranges: set<Range>, start: int): set<Range>
  {
    set rg | rg in ranges && rg.minRow >= start
  }

  /** The template merges the report keeps: those above the first data row. */
  function Kept(ranges: set<Range>): set<Range>
  {
    set rg | rg in ranges && rg.minRow < StartRow
  }

  /** The last row of a sheet; openpyxl refuses to address a cell below it. */
  const MaxRow: int := 1048576

  /** The longest text a cell stores; openpyxl cuts longer text to this length. */
  const MaxText: int := 32767

  /** The control characters openpyxl refuses in cell text: codes 0-8, 11, 12 and 14-31. */
  predicate Illegal(ch: char)
  {
    var k := ch as int;
    k <= 8 || k == 11 || k == 12 || 14 <= k <= 31
  }

  /** The text a cell stores when given `s`. */
  function Clip(s: string): (t: string)
    ensures |t| <= MaxText && t <= s
    ensures |s| <= MaxText ==> t == s
    ensures |s| > MaxText ==> t == s[..MaxText]
  {
    if |s| <= MaxText then s else s[..MaxText]
  }

  /** Text that can be written into a cell: what the cell would store has no refused character. */
  predicate Legal(s: string)
  {
    forall i :: 0 <= i < |Clip(s)| ==> !Illegal(Clip(s)[i])
  }

  /** The cell at (r, c); a coordinate the map does not hold is an empty cell. */
  function CellIn(cells: map<(int, int), Cell>, r: int, c: int): Cell
  {
    if (r, c) in cells then cells[(r, c)] else Blank
  }

  /** The cells with those a range hides dropped, as merging or unmerging it leaves them. */
  function Unhidden(cells: map<(int, int), Cell>, rg: Range): (m: map<(int, int), Cell>)
    ensures forall r, c :: CellIn(m, r, c) == if Hidden(rg, r, c) then Blank else CellIn(cells, r, c)
  {
    map k | k in cells && !Hidden(rg, k.0, k.1) :: cells[k]
  }

  /** The location merge of data row `r`: columns 2 to 8. */
  function PlaceMerge(r: int): Range
  {
    Range(r, PlaceFirst, r, PlaceLast)
  }

  /** The location merges of the first `n` data rows. */
  function PlaceMerges(n: nat): (ms: set<Range>)
    ensures forall rg :: rg in ms <==> (rg == PlaceMerge(rg.minRow) && StartRow <= rg.minRow < StartRow + n)
  {
    set r | StartRow <= r < StartRow + n :: PlaceMerge(r)
  }

  function StatusFill(s: Status): Fill
  {
    if Label(s) == "DETENIDO" then RedFill else GreenFill
  }

  function StatusFont(s: Status): Font
  {
    if Label(s) == "DETENIDO" then RedFont else GreenFont
  }

  /**
   * The formula that counts the unit column over the data rows. Its range starts
   * at the first data row and ends at the last one, `StartRow + n - 1`.
   */
  function CountFormula(n: nat): (f: string)
    ensures |f| > 13 && f[..12] == "=COUNTA(A7:A" && f[|f| - 1] == ')'
    ensures forall i :: 12 <= i < |f| - 1 ==> Decimal.IsDigit(f[i])
    ensures f[12] != '0'
    ensures Decimal.Read(f[12..|f| - 1]) == StartRow + n - 1
  {
    var last := Decimal.Show(StartRow + n - 1);
    Decimal.ReadShow(StartRow + n - 1);
    var f := "=COUNTA(A" + Decimal.Show(StartRow) + ":A" + last + ")";
    assert f[12..|f| - 1] == last;
    f
  }

  /** The cell in column `c` of a data row for `row`, given the cell as it was before. */
  function WrittenCell(before: Cell, c: int, row: Row): Cell
    requires UnitCol <= c <= StatusCol
  {
    if c == UnitCol then
      before.(value := if row.unit.Some? then Some(Clip(row.unit.value)) else before.value, border := true)
    else if c == PlaceFirst then
      before.(value := Some(Clip(row.location)), border := true)
    else if c <= PlaceLast then
      Blank.(border := true)
    else
      before.(value := Some(Label(row.status)), border := true,
              fill := StatusFill(row.status), font := StatusFont(row.status))
  }

  /** The cell at (r, c) once the rows of `results` are written over `before`. */
  function RowCell(results: seq<Row>, r: int, c: int, before: Cell): Cell
  {
    if StartRow <= r < StartRow + |results| && UnitCol <= c <= StatusCol
    then WrittenCell(before, c, results[r - StartRow])
    else before
  }

  /**
   * The whole rendered sheet at (r, c), from the template's cells and merges: the
   * cells hidden by removed merges emptied, the header's date and time, the data
   * rows, and the count formula.
   */
  ghost function Rendered(cells: map<(int, int), Cell>, merged: set<Range>, results: seq<Row>,
                          date: string, time: string, r: int, c: int): Cell
  {
    var cleared := if HiddenBy(MergesFrom(merged, StartRow), r, c) then Blank else CellIn(cells, r, c);
    var dated :=
      if (r, c) == (HeaderRow, DateCol) then cleared.(value := Some(Clip(date)))
      else if (r, c) == (HeaderRow, TimeCol) then cleared.(value := Some(Clip(time)))
      else cleared;
    var rowed := RowCell(results, r, c, dated);
    if (r, c) == (HeaderRow, CountCol) then rowed.(value := Some(Clip(CountFormula(|results|)))) else rowed
  }

  /** The unit (when there is one) and the location of `row` are legal cell text. */
  predicate TextsLegal(row: Row)
  {
    (row.unit.Some? ==> Legal(row.unit.value)) && Legal(row.location)
  }

  /**
   * Row `row` can be written at sheet row `r` under the merges `ranges`: no merge
   * hides a cell that receives a value (the unit when there is one, the location
   * and the status), and the texts are legal.
   */
  predicate Writable(ranges: set<Range>, r: int, row: Row)
  {
    (row.unit.Some? ==> !HiddenBy(ranges, r, UnitCol))
    && !HiddenBy(ranges, r, PlaceFirst) && !HiddenBy(ranges, r, StatusCol)
    && TextsLegal(row)
  }

  /** Data row `r`, when it holds one of `results`, can be written under `ranges`. */
  predicate RowFits(ranges: set<Range>, results: seq<Row>, r: int)
  {
    StartRow <= r < StartRow + |results| ==> Writable(ranges, r, results[r - StartRow])
  }

  /**
   * Rendering `results` with this date and time into a template with merges `merged`
   * raises nothing: no merge the report keeps hides C2, F2, H2 or a cell of a data
   * row that receives a value, every text written is legal, and the last data row
   * is within the sheet.
   */
  predicate Fits(merged: set<Range>, results: seq<Row>, date: string, time: string)
  {
    var kept := Kept(merged);
    !HiddenBy(kept, HeaderRow, DateCol) && !HiddenBy(kept, HeaderRow, TimeCol)
    && !HiddenBy(kept, HeaderRow, CountCol)
    && Legal(date) && Legal(time)
    && StartRow + |results| - 1 <= MaxRow
    && forall r :: StartRow <= r < StartRow + |results| ==> RowFits(kept, results, r)
  }

  /** The active sheet of the workbook loaded from the template. */
  class Sheet {
    var cells: map<(int, int), Cell>
    var merged: set<Range>

    constructor (cells: map<(int, int), Cell>, merged: set<Range>)
      ensures this.cells == cells && this.merged == merged
    {
      this.cells := cells;
      this.merged := merged;
    }

    function At(r: int, c: int): Cell
      reads this
    {
      CellIn(cells, r, c)
    }

    /**
     * `ws.cell(row, column, value)`: a None value leaves the cell as it was; text is
     * stored clipped, and openpyxl raises on a coordinate outside the sheet, and on
     * text for a hidden cell or with a refused character.
     */
    method Put(r: int, c: int, v: Option<string>)
      requires 1 <= r <= MaxRow && 1 <= c
      requires v.Some? ==> !HiddenBy(merged, r, c) && Legal(v.value)
      modifies this
      ensures merged == old(merged)
      ensures cells == if v.Some? then old(cells)[(r, c) := old(At(r, c)).(value := Some(Clip(v.value)))] else old(cells)
    {
      if v.Some? {
        cells := cells[(r, c) := At(r, c).(value := Some(Clip(v.value)))];
      }
    }

    /** `ws[coordinate] = text`, under the same conditions as `Put`. */
    method Assign(r: int, c: int, text: string)
      requires 1 <= r <= MaxRow && 1 <= c
      requires !HiddenBy(merged, r, c) && Legal(text)
      modifies this
      ensures merged == old(merged)
      ensures cells == old(cells)[(r, c) := old(At(r, c)).(value := Some(Clip(text)))]
    {
      cells := cells[(r, c) := At(r, c).(value := Some(Clip(text)))];
    }

    /** `cell.border = border`, the thin line on all four sides. */
    method Frame(r: int, c: int)
      modifies this
      ensures merged == old(merged)
      ensures cells == old(cells)[(r, c) := old(At(r, c)).(border := true)]
    {
      cells := cells[(r, c) := At(r, c).(border := true)];
    }

    /** `cell.fill = fill` and `cell.font = font`. */
    method Style(r: int, c: int, fill: Fill, font: Font)
      modifies this
      ensures merged == old(merged)
      ensures cells == old(cells)[(r, c) := old(At(r, c)).(fill := fill, font := font)]
    {
      cells := cells[(r, c) := At(r, c).(fill := fill, font := font)];
    }

    /** `ws.merge_cells`: the cells the range hides become empty placeholders. */
    method Merge(rg: Range)
      modifies this
      ensures merged == old(merged) + {rg}
      ensures cells == Unhidden(old(cells), rg)
    {
      merged := merged + {rg};
      cells := Unhidden(cells, rg);
    }

    /** `ws.unmerge_cells`: the range must be merged; the cells it hid are deleted. */
    method Unmerge(rg: Range)
      requires rg in merged
      modifies this
      ensures merged == old(merged) - {rg}
      ensures cells == Unhidden(old(cells), rg)
    {
      merged := merged - {rg};
      cells := Unhidden(cells, rg);
    }

    /**
     * Removes every merge that starts at or below row `start`, going through a
     * snapshot of the merges; the others stay.
     */
    method UnmergeFrom(start: int)
      modifies this
      ensures forall rg :: rg in merged <==> rg in old(merged) && rg.minRow < start
      ensures forall r, c :: At(r, c) == if HiddenBy(MergesFrom(old(merged), start), r, c) then Blank else old(At(r, c))
    {
      var pending := merged;
      while pending != {}
        invariant pending <= old(merged)
        invariant forall rg :: rg in merged <==> rg in old(merged) && (rg in pending || rg.minRow < start)
        invariant forall r, c ::
                    At(r, c) == if HiddenBy(MergesFrom(old(merged) - pending, start), r, c) then Blank else old(At(r, c))
        decreases pending
      {
        var rg :| rg in pending;
        ghost var before := MergesFrom(old(merged) - pending, start);
        if rg.minRow >= start {
          Unmerge(rg);
          assert MergesFrom(old(merged) - (pending - {rg}), start) == before + {rg};
          forall r, c ensures HiddenBy(before + {rg}, r, c) <==> HiddenBy(before, r, c) || Hidden(rg, r, c) {
            HiddenByAdd(before, rg, r, c);
          }
        } else {
          assert MergesFrom(old(merged) - (pending - {rg}), start) == before;
        }
        pending := pending - {rg};
      }
      assert MergesFrom(old(merged) - pending, start) == MergesFrom(old(merged), start);
    }

    /** C2 and F2 receive the run's date and time. */
    method WriteHeader(date: string, time: string)
      requires !HiddenBy(merged, HeaderRow, DateCol) && !HiddenBy(merged, HeaderRow, TimeCol)
      requires Legal(date) && Legal(time)
      modifies this
      ensures merged == old(merged)
      ensures cells == old(cells)[(HeaderRow, DateCol) := old(At(HeaderRow, DateCol)).(value := Some(Clip(date)))]
                                 [(HeaderRow, TimeCol) := old(At(HeaderRow, TimeCol)).(value := Some(Clip(time)))]
    {
      Assign(HeaderRow, DateCol, date);
      Assign(HeaderRow, TimeCol, time);
    }

    /**
     * The location span of data row `r`: columns 2 to 8 merged, the location in
     * column 2 and a border on each of the seven cells.
     */
    method WritePlace(r: int, row: Row)
      requires 1 <= r <= MaxRow
      requires !HiddenBy(merged, r, PlaceFirst) && Legal(row.location)
      modifies this
      ensures merged == old(merged) + {PlaceMerge(r)}
      ensures forall r', c ::
                At(r', c) == if r' == r && PlaceFirst <= c <= PlaceLast then WrittenCell(old(At(r', c)), c, row) else old(At(r', c))
    {
      Merge(PlaceMerge(r));
      HiddenByAdd(old(merged), PlaceMerge(r), r, PlaceFirst);
      for col := PlaceFirst to PlaceLast + 1
        invariant merged == old(merged) + {PlaceMerge(r)}
        invariant !HiddenBy(merged, r, PlaceFirst)
        invariant forall r', c ::
                    At(r', c) ==
                      if r' == r && PlaceFirst <= c < col then WrittenCell(old(At(r', c)), c, row)
                      else if r' == r && col <= c <= PlaceLast && c != PlaceFirst then Blank
                      else old(At(r', c))
      {
        label Top:
        Put(r, col, if col == PlaceFirst then Some(row.location) else None);
        Frame(r, col);
        assert At(r, col) == WrittenCell(old(At(r, col)), col, row);
        assert forall r', c :: (r', c) != (r, col) ==> At(r', c) == old@Top(At(r', c));
      }
    }

    /**
     * One data row at sheet row `r`: the unit, the merged location span, and the
     * colour-coded status, each cell with a border.
     */
    method WriteRow(r: int, row: Row)
      requires 1 <= r <= MaxRow
      requires Writable(merged, r, row)
      modifies this
      ensures merged == old(merged) + {PlaceMerge(r)}
      ensures forall r', c ::
                At(r', c) == if r' == r && UnitCol <= c <= StatusCol then WrittenCell(old(At(r', c)), c, row) else old(At(r', c))
    {
      Put(r, UnitCol, row.unit);
      Frame(r, UnitCol);
      label Placed:
      WritePlace(r, row);
      HiddenByAdd(old(merged), PlaceMerge(r), r, StatusCol);
      LabelLegal(row.status);
      label Labelled:
      Put(r, StatusCol, Some(Label(row.status)));
      Frame(r, StatusCol);
      if Label(row.status) == "DETENIDO" {
        Style(r, StatusCol, RedFill, RedFont);
      } else {
        Style(r, StatusCol, GreenFill, GreenFont);
      }
      assert forall r', c :: (r', c) != (r, StatusCol) ==> At(r', c) == old@Labelled(At(r', c));
    }

    /** The data rows, one per result, from the first data row down. */
    method WriteRows(results: seq<Row>)
      requires StartRow + |results| - 1 <= MaxRow
      requires forall r :: StartRow <= r < StartRow + |results| ==> RowFits(merged, results, r)
      modifies this
      ensures merged == old(merged) + PlaceMerges(|results|)
      ensures forall r, c :: At(r, c) == RowCell(results, r, c, old(At(r, c)))
    {
      for k := 0 to |results|
        invariant merged == old(merged) + PlaceMerges(k)
        invariant forall r :: StartRow + k <= r < StartRow + |results| ==> RowFits(merged, results, r)
        invariant forall r, c :: At(r, c) == RowCell(results[..k], r, c, old(At(r, c)))
      {
        assert RowFits(merged, results, StartRow + k);
        ghost var before := merged;
        WriteRow(StartRow + k, results[k]);
        forall r | StartRow + k + 1 <= r < StartRow + |results|
          ensures RowFits(merged, results, r)
        {
          assert RowFits(before, results, r);
          RowFitsAdd(before, results, r, StartRow + k);
        }
        assert PlaceMerges(k + 1) == PlaceMerges(k) + {PlaceMerge(StartRow + k)};
      }
      assert results[..|results|] == results;
    }

    /** H2 receives the count formula over the `n` data rows. */
    method WriteCount(n: nat)
      requires !HiddenBy(merged, HeaderRow, CountCol)
      modifies this
      ensures merged == old(merged)
      ensures cells == old(cells)[(HeaderRow, CountCol) := old(At(HeaderRow, CountCol)).(value := Some(Clip(CountFormula(n))))]
    {
      FormulaLegal(n);
      Assign(HeaderRow, CountCol, CountFormula(n));
    }

    /** The whole rendering, from the loaded template to the sheet that is saved. */
    method Render(results: seq<Row>, date: string, time: string)
      requires Fits(merged, results, date, time)
      modifies this
      ensures forall rg :: rg in merged <==>
        (rg in old(merged) && rg.minRow < StartRow) || rg in PlaceMerges(|results|)
      ensures forall r, c :: At(r, c) == Rendered(old(cells), old(merged), results, date, time, r, c)
    {
      UnmergeFrom(StartRow);
      assert merged == Kept(old(merged));
      label Cleared:
      WriteHeader(date, time);
      label Dated:
      WriteRows(results);
      label Rowed:
      WriteCount(|results|);
      forall r, c ensures At(r, c) == Rendered(old(cells), old(merged), results, date, time, r, c) {
        assert old@Dated(At(r, c)) == CellIn(old@Dated(cells), r, c);
        assert old@Rowed(At(r, c)) == RowCell(results, r, c, old@Dated(At(r, c)));
      }
    }
  }

  lemma HiddenByAdd(ranges: set<Range>, rg: Range, r: int, c: int)
    ensures HiddenBy(ranges + {rg}, r, c) <==> HiddenBy(ranges, r, c) || Hidden(rg, r, c)
  {
  }

  /** Merging the location span of one data row leaves every other row writable. */
  lemma RowFitsAdd(ranges: set<Range>, results: seq<Row>, r: int, other: int)
    requires r != other && RowFits(ranges, results, r)
    ensures RowFits(ranges + {PlaceMerge(other)}, results, r)
  {
  }

  /** Both status labels can be written into a cell and are stored whole. */
  lemma LabelLegal(s: Status)
    ensures Legal(Label(s)) && Clip(Label(s)) == Label(s)
  {
  }

  /** The count formula holds no character a cell refuses. */
  lemma FormulaLegal(n: nat)
    ensures Legal(CountFormula(n))
  {
  }

  /**
   * Data row `r` of the rendered sheet holds result `r - StartRow`: the unit (when
   * the record had one) and the location in column 2, as a cell stores them, with
   * columns 3 to 8 empty, a border on all nine cells, and the status in column 9,
   * red exactly when it is DETENIDO and green exactly when it is RUTA.
   */
  lemma RenderedRow(cells: map<(int, int), Cell>, merged: set<Range>, results: seq<Row>,
                    date: string, time: string, r: int)
    requires StartRow <= r < StartRow + |results|
    ensures results[r - StartRow].unit.Some? ==>
      Rendered(cells, merged, results, date, time, r, UnitCol).value == Some(Clip(results[r - StartRow].unit.value))
    ensures Rendered(cells, merged, results, date, time, r, PlaceFirst).value == Some(Clip(results[r - StartRow].location))
    ensures forall c :: PlaceFirst < c <= PlaceLast ==>
      Rendered(cells, merged, results, date, time, r, c).value.None?
    ensures forall c :: UnitCol <= c <= StatusCol ==>
      Rendered(cells, merged, results, date, time, r, c).border
    ensures Rendered(cells, merged, results, date, time, r, StatusCol).value == Some(Label(results[r - StartRow].status))
    ensures Rendered(cells, merged, results, date, time, r, StatusCol).fill == RedFill <==> results[r - StartRow].status == Stopped
    ensures Rendered(cells, merged, results, date, time, r, StatusCol).fill == GreenFill <==> results[r - StartRow].status == InRoute
    ensures Rendered(cells, merged, results, date, time, r, StatusCol).font == RedFont <==> results[r - StartRow].status == Stopped
    ensures Rendered(cells, merged, results, date, time, r, StatusCol).font == GreenFont <==> results[r - StartRow].status == InRoute
  {
  }

  /**
   * The header of the rendered sheet: C2 and F2 hold the date and time, H2 the count
   * formula, and every other cell above the data rows is the template's.
   */
  lemma RenderedHeader(cells: map<(int, int), Cell>, merged: set<Range>, results: seq<Row>, date: string, time: string)
    ensures Rendered(cells, merged, results, date, time, HeaderRow, DateCol).value == Some(Clip(date))
    ensures Rendered(cells, merged, results, date, time, HeaderRow, TimeCol).value == Some(Clip(time))
    ensures Rendered(cells, merged, results, date, time, HeaderRow, CountCol).value == Some(Clip(CountFormula(|results|)))
    ensures forall r, c :: r < StartRow && r != HeaderRow ==> Rendered(cells, merged, results, date, time, r, c) == CellIn(cells, r, c)
    ensures forall c :: c != DateCol && c != TimeCol && c != CountCol ==>
      Rendered(cells, merged, results, date, time, HeaderRow, c) == CellIn(cells, HeaderRow, c)
  {
  }

  /** Below the last data row, the template's cells stay, except those a removed merge hid. */
  lemma RenderedBelow(cells: map<(int, int), Cell>, merged: set<Range>, results: seq<Row>,
                      date: string, time: string, r: int, c: int)
    requires r >= StartRow + |results|
    ensures !HiddenBy(MergesFrom(merged, StartRow), r, c) ==> Rendered(cells, merged, results, date, time, r, c) == CellIn(cells, r, c)
    ensures HiddenBy(MergesFrom(merged, StartRow), r, c) ==> Rendered(cells, merged, results, date, time, r, c) == Blank
  {
  }

  /**
   * When every template merge either goes with the data rows or lies clear of row 2
   * and of the data rows, rendering raises exactly when some text is illegal or the
   * rows run past the last row of the sheet.
   */
  lemma ClearTemplateFits(merged: set<Range>, results: seq<Row>, date: string, time: string)
    requires forall rg :: rg in merged ==>
      rg.minRow >= StartRow || rg.maxRow < HeaderRow || (HeaderRow < rg.minRow && rg.maxRow < StartRow)
    ensures Fits(merged, results, date, time) <==>
      Legal(date) && Legal(time) && StartRow + |results| - 1 <= MaxRow
      && forall k :: 0 <= k < |results| ==> TextsLegal(results[k])
  {
    var kept := Kept(merged);
    forall r, c | r == HeaderRow || r >= StartRow
      ensures !HiddenBy(kept, r, c)
    {
    }
    if Legal(date) && Legal(time) && forall k :: 0 <= k < |results| ==> TextsLegal(results[k]) {
      forall r | StartRow <= r < StartRow + |results|
        ensures RowFits(kept, results, r)
      {
        assert TextsLegal(results[r - StartRow]);
      }
    }
    if Fits(merged, results, date, time) {
      forall k | 0 <= k < |results|
        ensures TextsLegal(results[k])
      {
        assert RowFits(kept, results, StartRow + k);
      }
    }
  }

  /** A kept merge over the first data row's unit cell, such as A5:A8, makes the render raise. */
  lemma CoveredUnitRaises(results: seq<Row>, date: string, time: string)
    requires |results| >= 1 && results[0].unit.Some?
    ensures !Fits({Range(5, UnitCol, 8, UnitCol)}, results, date, time)
  {
    var kept := Kept({Range(5, UnitCol, 8, UnitCol)});
    assert Range(5, UnitCol, 8, UnitCol) in kept;
    assert HiddenBy(kept, StartRow, UnitCol);
    assert !RowFits(kept, results, StartRow);
  }

  /** With no rows, the formula's range runs backwards from row 7 to row 6. */
  lemma EmptyReportFormula()
    ensures CountFormula(0) == "=COUNTA(A7:A6)"
  {
  }
}
