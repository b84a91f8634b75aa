/** The company salary table screen: the grade and position bands of each
    education, the rows it renders with their row spans and year-over-year
    increases, the per-position averages, the currency formatting and the
    parsing of an edited cell. */
module CompanySalaryTable {
  import opened Common
  import opened Types
  import opened JsText
  import opened Logic
  import GeminiService

  // ---------------------------------------------------------------------
  // JOB_STRUCTURE

  /** A named range of experience years, both ends included. */
  datatype Band = Band(name: string, start: int, end: int)

  /** The engineer-grade bands and the position bands of one education. */
  datatype JobStructure = JobStructure(levels: seq<Band>, positions: seq<Band>)

  /** The grade names, lowest first (beginner, intermediate, advanced, expert). */
  const LevelNames: seq<string> := ["초급", "중급", "고급", "특급"]

  /** The positions, the same for every education. */
  const Positions: seq<Band> :=
    [Band("사원", 1, 3), Band("대리", 4, 6), Band("과장", 7, 9), Band("차장", 10, 14), Band("부장", 15, 20)]

  /** JOB_STRUCTURE: the grade bands follow the classifier's staircase, from
      the education's entry year on in steps of three years. */
  function Structure(e: Education): (s: JobStructure)
    ensures s.positions == Positions
    ensures |s.levels| == 4 && forall i :: 0 <= i < 4 ==> s.levels[i].name == LevelNames[i]
    ensures s.levels[0].start == 1 && s.levels[3].end == 20
    ensures forall i :: 1 <= i < 4 ==> s.levels[i].start == EntryYear(e) + 3 * (i - 1)
  {
    match e
    case Master =>
      JobStructure([Band("초급", 1, 3), Band("중급", 4, 6), Band("고급", 7, 9), Band("특급", 10, 20)], Positions)
    case Bachelor =>
      JobStructure([Band("초급", 1, 6), Band("중급", 7, 9), Band("고급", 10, 12), Band("특급", 13, 20)], Positions)
    case Associate =>
      JobStructure([Band("초급", 1, 9), Band("중급", 10, 12), Band("고급", 13, 15), Band("특급", 16, 20)], Positions)
    case HighSchool =>
      JobStructure([Band("초급", 1, 12), Band("중급", 13, 15), Band("고급", 16, 18), Band("특급", 19, 20)], Positions)
  }

  /** The bands cover first..last contiguously, in order, none empty. */
  predicate Tiles(bands: seq<Band>, first: int, last: int)
    decreases |bands|
  {
    |bands| > 0 && bands[0].start == first && bands[0].start <= bands[0].end
    && if |bands| == 1 then bands[0].end == last else Tiles(bands[1..], bands[0].end + 1, last)
  }

  /** Every grade band and every position band covers years 1..20 contiguously
      with no overlap. */
  lemma StructureTiles(e: Education)
    ensures Tiles(Structure(e).levels, 1, 20)
    ensures Tiles(Structure(e).positions, 1, 20)
  {
  }

  /** A tiling starts strictly later band by band. */
  predicate StartsIncrease(bands: seq<Band>)
  {
    forall i, j :: 0 <= i < j < |bands| ==> bands[i].start < bands[j].start
  }

  lemma {:induction false} TilesStartsIncrease(bands: seq<Band>, first: int, last: int)
    requires Tiles(bands, first, last)
    ensures StartsIncrease(bands)
    ensures forall i :: 0 <= i < |bands| ==> first <= bands[i].start <= bands[i].end <= last
    decreases |bands|
  {
    if |bands| > 1 {
      TilesStartsIncrease(bands[1..], bands[0].end + 1, last);
      assert forall i :: 1 <= i < |bands| ==> bands[i] == bands[1..][i - 1];
    }
  }

  /** The grade band that contains a year is the one the level calculator
      returns: the calculator's thresholds are the bands' first years. */
  lemma LevelsMatchClassifier(e: Education, year: int)
    requires 1 <= year <= 20
    ensures var rank := CalculateEngineerLevel(year, Some(e)).Rank();
      Structure(e).levels[rank].start <= year <= Structure(e).levels[rank].end
      && Structure(e).levels[rank].name == LevelNames[rank]
  {
  }

  // ---------------------------------------------------------------------
  // Row spans

  /** Year 1 is rendered as one row, every later year as three. */
  function RowsOfYear(year: int): nat
  {
    if year == 1 then 1 else 3
  }

  /** Reference definition: the rows years first..last occupy. */
  function RowsBetween(first: int, last: int): nat
    decreases last - first
  {
    if last < first then 0 else RowsBetween(first, last - 1) + RowsOfYear(last)
  }

  /** Three rows a year, two fewer when year 1 is included. */
  lemma {:induction false} RowsBetweenClosedForm(first: int, last: int)
    requires 1 <= first <= last + 1
    ensures RowsBetween(first, last) == 3 * (last - first + 1) - (if first == 1 && first <= last then 2 else 0)
    decreases last - first
  {
    if first <= last {
      RowsBetweenClosedForm(first, last - 1);
    }
  }

  lemma {:induction false} RowsBetweenSplit(first: int, mid: int, last: int)
    requires first - 1 <= mid <= last
    ensures RowsBetween(first, last) == RowsBetween(first, mid) + RowsBetween(mid + 1, last)
    decreases last - mid
  {
    if mid < last {
      RowsBetweenSplit(first, mid, last - 1);
    }
  }

  /** The rowSpan of a band's cell: one row for year 1, three for each other. */
  method RowSpan(b: Band) returns (span: int)
    ensures span == RowsBetween(b.start, b.end)
  {
    span := 0;
    var i := b.start;
    while i <= b.end
      invariant i == b.start || b.start <= i <= b.end + 1
      invariant span == RowsBetween(b.start, i - 1)
      decreases b.end - i
    {
      span := span + (if i == 1 then 1 else 3);
      i := i + 1;
    }
  }

  /** A merged cell: its text and how many rows it spans. */
  datatype Cell = Cell(name: string, rowSpan: int)

  /** The cells of a band list, in order. */
  function BandCells(bands: seq<Band>): (cells: seq<Cell>)
    ensures |cells| == |bands|
  {
    seq(|bands|, i requires 0 <= i < |bands| => Cell(bands[i].name, RowsBetween(bands[i].start, bands[i].end)))
  }

  function SpanTotal(cells: seq<Cell>): int
  {
    if cells == [] then 0 else cells[0].rowSpan + SpanTotal(cells[1..])
  }

  /** The spans of a tiling add up to the rows of the years it tiles. */
  lemma {:induction false} TilingSpans(bands: seq<Band>, first: int, last: int)
    requires Tiles(bands, first, last)
    ensures SpanTotal(BandCells(bands)) == RowsBetween(first, last)
    decreases |bands|
  {
    TilesStartsIncrease(bands, first, last);
    var cells := BandCells(bands);
    if |bands| == 1 {
      assert cells[1..] == [];
    } else {
      TilingSpans(bands[1..], bands[0].end + 1, last);
      assert BandCells(bands[1..]) == cells[1..];
      RowsBetweenSplit(first, bands[0].end, last);
    }
  }

  // ---------------------------------------------------------------------
  // The rendered rows

  /** A value of the yearly table; a missing year reads as all null. */
  function YearValue(data: YearlyTable, year: int, f: Field): (v: Option<int>)
    ensures year !in data ==> v.None?
    ensures v.Some? ==> year in data && data[year].Get(f) == v
  {
    if year in data then data[year].Get(f) else None
  }

  /** The salary an increase at `year` is measured from: year 1's middle for
      year 2, the previous year's high afterwards. */
  function IncreaseBase(data: YearlyTable, year: int): (base: Option<int>)
    ensures base.Some? ==> year - 1 in data
    ensures base.Some? ==> base == data[year - 1].Get(if year == 2 then Middle else High)
  {
    if year == 2 then YearValue(data, 1, Middle) else YearValue(data, year - 1, High)
  }

  /** increaseAmount: this year's high minus the base, when both are set. */
  function IncreaseAmount(data: YearlyTable, year: int): (amount: Option<int>)
    ensures amount.Some? <==> year > 1 && YearValue(data, year, High).Some? && IncreaseBase(data, year).Some?
  {
    var high := YearValue(data, year, High);
    var base := IncreaseBase(data, year);
    if year > 1 && high.Some? && base.Some? then Some(high.value - base.value) else None
  }

  /** increaseRate: the amount as a percentage of a positive base. */
  function IncreaseRate(data: YearlyTable, year: int): (rate: Option<real>)
    ensures rate.Some? <==> IncreaseAmount(data, year).Some? && IncreaseBase(data, year).value > 0
  {
    var amount := IncreaseAmount(data, year);
    var base := IncreaseBase(data, year);
    if amount.Some? && base.value > 0 then Some(amount.value as real / base.value as real * 100.0) else None
  }

  /** Sum of the increases of years 2..last. */
  function IncreaseTotal(data: YearlyTable, last: int): int
    decreases last
  {
    if last < 2 then 0
    else IncreaseTotal(data, last - 1)
         + (if IncreaseAmount(data, last).Some? then IncreaseAmount(data, last).value else 0)
  }

  /** When year 1's middle and the highs of years 2..last are all set, the
      increases add up to the last high minus year 1's middle: the increase
      column accounts for the whole growth of the table. */
  lemma {:induction false} IncreasesTelescope(data: YearlyTable, last: int)
    requires last >= 1
    requires YearValue(data, 1, Middle).Some?
    requires forall y :: 2 <= y <= last ==> YearValue(data, y, High).Some?
    ensures IncreaseTotal(data, last)
            == (if last == 1 then 0 else YearValue(data, last, High).value - YearValue(data, 1, Middle).value)
    decreases last
  {
    if last > 1 {
      IncreasesTelescope(data, last - 1);
    }
  }

  /** One rendered table row: its year, which field it edits, the grade and
      position cells that start on it, and, on the first row of a later year,
      the increase columns. */
  datatype Row = Row(
    year: int, tier: Field, level: Option<Cell>, position: Option<Cell>,
    value: Option<int>, increase: Option<int>, rate: Option<real>)

  function LevelCells(rows: seq<Row>): seq<Cell>
  {
    if rows == [] then []
    else LevelCells(rows[..|rows| - 1])
         + (if rows[|rows| - 1].level.Some? then [rows[|rows| - 1].level.value] else [])
  }

  function PositionCells(rows: seq<Row>): seq<Cell>
  {
    if rows == [] then []
    else PositionCells(rows[..|rows| - 1])
         + (if rows[|rows| - 1].position.Some? then [rows[|rows| - 1].position.value] else [])
  }

  lemma {:induction false} CellsAppend(a: seq<Row>, b: seq<Row>)
    ensures LevelCells(a + b) == LevelCells(a) + LevelCells(b)
    ensures PositionCells(a + b) == PositionCells(a) + PositionCells(b)
    decreases |b|
  {
    if b != [] {
      var c := b[..|b| - 1];
      assert (a + b)[..|a + b| - 1] == a + c;
      CellsAppend(a, c);
    } else {
      assert a + b == a;
    }
  }

  /** levels.find(l => l.start === year): the first band starting at year. */
  function FindByStart(bands: seq<Band>, year: int): (r: Option<Band>)
    ensures r.Some? ==> r.value.start == year && exists i :: 0 <= i < |bands| && bands[i] == r.value
    ensures r.None? ==> forall i :: 0 <= i < |bands| ==> bands[i].start != year
  {
    if bands == [] then None
    else if bands[0].start == year then Some(bands[0])
    else
      var r := FindByStart(bands[1..], year);
      assert forall i :: 1 <= i < |bands| ==> bands[i] == bands[1..][i - 1];
      r
  }

  /** With starts increasing, the band found at a year is the next band not
      yet passed, or none. */
  lemma FindAtCursor(bands: seq<Band>, k: int, year: int)
    requires StartsIncrease(bands)
    requires 0 <= k <= |bands|
    requires k < |bands| ==> bands[k].start >= year
    requires k > 0 ==> bands[k - 1].start < year
    ensures FindByStart(bands, year) == if k < |bands| && bands[k].start == year then Some(bands[k]) else None
  {
    assert forall j :: 0 <= j < k ==> bands[j].start < year;
    assert forall j :: k < j < |bands| ==> bands[j].start > year;
  }

  /** The cursor k of the rendering loop at `year`: the bands before k start
      before year, the band at k (if any) at year or later. */
  predicate Cursor(bands: seq<Band>, k: int, year: int)
  {
    0 <= k <= |bands|
    && (k < |bands| ==> bands[k].start >= year)
    && (k > 0 ==> bands[k - 1].start < year)
  }

  /** One step of the rendering loop over the bands of one column: the cell
      emitted at `year` (the band starting there, spanning its rows), and the
      cursor moved past it. */
  method BandCellAt(bands: seq<Band>, k: int, year: int) returns (cell: Option<Cell>, k': int)
    requires Tiles(bands, 1, 20) && Cursor(bands, k, year)
    ensures cell == BandCell(FindByStart(bands, year))
    ensures Cursor(bands, k', year + 1)
    ensures BandCells(bands)[..k] + CellList(cell) == BandCells(bands)[..k']
  {
    TilesStartsIncrease(bands, 1, 20);
    FindAtCursor(bands, k, year);
    var found := FindByStart(bands, year);
    if found.Some? {
      var span := RowSpan(found.value);
      cell, k' := Some(Cell(found.value.name, span)), k + 1;
      assert BandCells(bands)[..k'] == BandCells(bands)[..k] + [BandCells(bands)[k]];
    } else {
      cell, k' := None, k;
    }
  }

  /** A row shows the table's value of its year and field, and the first row
      of a later year shows that year's increase. */
  predicate RowShows(data: YearlyTable, r: Row)
  {
    r.value == YearValue(data, r.year, r.tier)
    && (r.year > 1 && r.tier == High ==>
          r.increase == IncreaseAmount(data, r.year) && r.rate == IncreaseRate(data, r.year))
    && (r.year == 1 || r.tier != High ==> r.increase.None? && r.rate.None?)
  }

  /** Every row belongs to a year of first..last and shows its values. */
  predicate RowsShow(data: YearlyTable, rows: seq<Row>, first: int, last: int)
  {
    forall k :: 0 <= k < |rows| ==> first <= rows[k].year <= last && RowShows(data, rows[k])
  }

  lemma RowsShowAppend(data: YearlyTable, rows: seq<Row>, added: seq<Row>, year: int)
    requires year >= 1 && RowsShow(data, rows, 1, year - 1) && RowsShow(data, added, year, year)
    ensures RowsShow(data, rows + added, 1, year)
  {
    assert forall k :: 0 <= k < |rows| ==> (rows + added)[k] == rows[k];
    assert forall k :: |rows| <= k < |rows + added| ==> (rows + added)[k] == added[k - |rows|];
  }

  function CellList(cell: Option<Cell>): seq<Cell>
  {
    if cell.Some? then [cell.value] else []
  }

  /** The field row j of a year edits: year 1 has its middle row alone, a
      later year high, middle and low in that order. */
  function TierAt(year: int, j: int): Field
  {
    if year == 1 || j == 1 then Middle else if j == 0 then High else Low
  }

  /** The cell a column shows for the band found at a year: the band's name,
      spanning the band's rows. */
  function BandCell(found: Option<Band>): Option<Cell>
  {
    if found.Some? then Some(Cell(found.value.name, RowsBetween(found.value.start, found.value.end))) else None
  }

  /** Row j of the rows of `year`, which start at `start`, belongs to that
      year, edits the field TierAt(year, j), and carries no cell unless it is
      the first. */
  predicate BlockRow(rows: seq<Row>, start: int, year: int, j: int)
  {
    0 <= start + j < |rows|
    && rows[start + j].year == year && rows[start + j].tier == TierAt(year, j)
    && (j > 0 ==> rows[start + j].level.None? && rows[start + j].position.None?)
  }

  /** The rows of `year` sit at rows[start..start + RowsOfYear(year)] in field
      order, and only the first of them carries the given cells. */
  predicate YearBlock(rows: seq<Row>, start: int, year: int, levelCell: Option<Cell>, positionCell: Option<Cell>)
  {
    0 <= start && start + RowsOfYear(year) <= |rows|
    && rows[start].level == levelCell && rows[start].position == positionCell
    && forall j :: 0 <= j < RowsOfYear(year) ==> BlockRow(rows, start, year, j)
  }

  /** The layout of years 1..last: each year's rows at the offset of the rows
      before it, the first of them carrying the cells of the bands that start
      that year. */
  predicate LaidOut(rows: seq<Row>, levels: seq<Band>, positions: seq<Band>, last: int)
  {
    forall y :: 1 <= y <= last ==>
      YearBlock(rows, RowsBetween(1, y - 1), y, BandCell(FindByStart(levels, y)), BandCell(FindByStart(positions, y)))
  }

  lemma YearBlockExtend(rows: seq<Row>, added: seq<Row>, start: int, year: int, lc: Option<Cell>, pc: Option<Cell>)
    requires YearBlock(rows, start, year, lc, pc)
    ensures YearBlock(rows + added, start, year, lc, pc)
  {
    forall j | 0 <= j < RowsOfYear(year)
      ensures BlockRow(rows + added, start, year, j)
    {
      assert BlockRow(rows, start, year, j);
      assert (rows + added)[start + j] == rows[start + j];
    }
  }

  lemma YearBlockShift(rows: seq<Row>, added: seq<Row>, year: int, lc: Option<Cell>, pc: Option<Cell>)
    requires YearBlock(added, 0, year, lc, pc)
    ensures YearBlock(rows + added, |rows|, year, lc, pc)
  {
    forall j | 0 <= j < RowsOfYear(year)
      ensures BlockRow(rows + added, |rows|, year, j)
    {
      assert BlockRow(added, 0, year, j);
      assert (rows + added)[|rows| + j] == added[0 + j];
    }
  }

  lemma LaidOutAppend(rows: seq<Row>, added: seq<Row>, levels: seq<Band>, positions: seq<Band>, year: int)
    requires year >= 1 && |rows| == RowsBetween(1, year - 1)
    requires LaidOut(rows, levels, positions, year - 1)
    requires YearBlock(added, 0, year, BandCell(FindByStart(levels, year)), BandCell(FindByStart(positions, year)))
    ensures LaidOut(rows + added, levels, positions, year)
  {
    forall y | 1 <= y <= year
      ensures YearBlock(rows + added, RowsBetween(1, y - 1), y, BandCell(FindByStart(levels, y)), BandCell(FindByStart(positions, y)))
    {
      if y < year {
        YearBlockExtend(rows, added, RowsBetween(1, y - 1), y, BandCell(FindByStart(levels, y)), BandCell(FindByStart(positions, y)));
      } else {
        YearBlockShift(rows, added, y, BandCell(FindByStart(levels, y)), BandCell(FindByStart(positions, y)));
      }
    }
  }

  /** The year of row k of the table: row 0 is year 1, rows 3y-5..3y-3 are
      year y. */
  function YearOfIndex(k: int): int
  {
    if k <= 0 then 1 else (k - 1) / 3 + 2
  }

  lemma IndexInYear(k: int)
    requires 0 <= k < 58
    ensures 1 <= YearOfIndex(k) <= 20
    ensures RowsBetween(1, YearOfIndex(k) - 1) <= k < RowsBetween(1, YearOfIndex(k) - 1) + RowsOfYear(YearOfIndex(k))
  {
    RowsBetweenClosedForm(1, YearOfIndex(k) - 1);
    assert k == 0 || k - 1 == 3 * ((k - 1) / 3) + (k - 1) % 3;
  }

  /** In a laid-out table of years 1..20, row k belongs to year
      YearOfIndex(k), and a grade or position cell appears only on the first
      row of a year at which some band starts. */
  lemma CellsOnFirstRows(rows: seq<Row>, levels: seq<Band>, positions: seq<Band>)
    requires |rows| == 58 && LaidOut(rows, levels, positions, 20)
    ensures forall k :: 0 <= k < |rows| ==> rows[k].year == YearOfIndex(k)
    ensures forall k :: 0 <= k < |rows| && rows[k].level.Some? ==>
              k == RowsBetween(1, YearOfIndex(k) - 1) && FindByStart(levels, YearOfIndex(k)).Some?
    ensures forall k :: 0 <= k < |rows| && rows[k].position.Some? ==>
              k == RowsBetween(1, YearOfIndex(k) - 1) && FindByStart(positions, YearOfIndex(k)).Some?
  {
    forall k | 0 <= k < |rows|
      ensures rows[k].year == YearOfIndex(k)
      ensures rows[k].level.Some? || rows[k].position.Some? ==> k == RowsBetween(1, YearOfIndex(k) - 1)
      ensures rows[k].level.Some? ==> FindByStart(levels, YearOfIndex(k)).Some?
      ensures rows[k].position.Some? ==> FindByStart(positions, YearOfIndex(k)).Some?
    {
      var y := YearOfIndex(k);
      IndexInYear(k);
      var start := RowsBetween(1, y - 1);
      assert YearBlock(rows, start, y, BandCell(FindByStart(levels, y)), BandCell(FindByStart(positions, y)));
      assert BlockRow(rows, start, y, k - start);
    }
  }

  /** The rows of one year: the middle row alone for year 1; high, middle and
      low for a later year, the first carrying the merged cells and the
      increase columns. */
  method YearRows(data: YearlyTable, year: int, levelCell: Option<Cell>, positionCell: Option<Cell>)
    returns (added: seq<Row>)
    ensures |added| == RowsOfYear(year)
    ensures LevelCells(added) == CellList(levelCell) && PositionCells(added) == CellList(positionCell)
    ensures RowsShow(data, added, year, year)
    ensures YearBlock(added, 0, year, levelCell, positionCell)
  {
    if year == 1 {
      var head := Row(year, Middle, levelCell, positionCell, YearValue(data, year, Middle), None, None);
      added := [head];
      OneRowCells(head);
    } else {
      var head := Row(year, High, levelCell, positionCell, YearValue(data, year, High),
                      IncreaseAmount(data, year), IncreaseRate(data, year));
      var middle := Row(year, Middle, None, None, YearValue(data, year, Middle), None, None);
      var low := Row(year, Low, None, None, YearValue(data, year, Low), None, None);
      added := [head, middle, low];
      OneRowCells(head);
      assert added[..2] == [head, middle] && [head, middle][..1] == [head];
      assert RowShows(data, head);
      LaterYearLayout(data, head, middle, low);
    }
  }

  /** The high, middle and low rows of a later year, with the cells and the
      increase columns on the high row only, show the year and lie in order. */
  lemma LaterYearLayout(data: YearlyTable, head: Row, middle: Row, low: Row)
    requires head.year != 1 && head.tier == High && RowShows(data, head)
    requires middle == Row(head.year, Middle, None, None, YearValue(data, head.year, Middle), None, None)
    requires low == Row(head.year, Low, None, None, YearValue(data, head.year, Low), None, None)
    ensures RowsShow(data, [head, middle, low], head.year, head.year)
    ensures YearBlock([head, middle, low], 0, head.year, head.level, head.position)
  {
    var rows := [head, middle, low];
    assert RowShows(data, middle) && RowShows(data, low);
    assert BlockRow(rows, 0, head.year, 0) && BlockRow(rows, 0, head.year, 1) && BlockRow(rows, 0, head.year, 2);
  }

  lemma OneRowCells(r: Row)
    ensures LevelCells([r]) == CellList(r.level) && PositionCells([r]) == CellList(r.position)
  {
    assert [r][..0] == [];
  }

  /** Once past year 20, the cursor has passed every band of a tiling of
      years 1..20, so all their cells have been emitted. */
  lemma CursorExhausted(bands: seq<Band>, k: int)
    requires Tiles(bands, 1, 20) && Cursor(bands, k, 21)
    ensures BandCells(bands)[..k] == BandCells(bands)
  {
    TilesStartsIncrease(bands, 1, 20);
    assert k == |bands|;
  }

  /** The rows of years 1..20 for any tiling of grade and position bands. */
  method RenderRows(levels: seq<Band>, positions: seq<Band>, data: YearlyTable) returns (rows: seq<Row>)
    requires Tiles(levels, 1, 20) && Tiles(positions, 1, 20)
    ensures |rows| == 58
    ensures LevelCells(rows) == BandCells(levels) && PositionCells(rows) == BandCells(positions)
    ensures RowsShow(data, rows, 1, 20)
    ensures LaidOut(rows, levels, positions, 20)
  {
    rows := [];
    var li, pi := 0, 0;
    var year := 1;
    while year <= 20
      invariant 1 <= year <= 21
      invariant |rows| == RowsBetween(1, year - 1)
      invariant Cursor(levels, li, year) && Cursor(positions, pi, year)
      invariant LevelCells(rows) == BandCells(levels)[..li]
      invariant PositionCells(rows) == BandCells(positions)[..pi]
      invariant RowsShow(data, rows, 1, year - 1)
      invariant LaidOut(rows, levels, positions, year - 1)
    {
      var levelCell, positionCell;
      levelCell, li := BandCellAt(levels, li, year);
      positionCell, pi := BandCellAt(positions, pi, year);
      var added := YearRows(data, year, levelCell, positionCell);
      CellsAppend(rows, added);
      RowsShowAppend(data, rows, added, year);
      LaidOutAppend(rows, added, levels, positions, year);
      rows := rows + added;
      year := year + 1;
    }
    CursorExhausted(levels, li);
    CursorExhausted(positions, pi);
    RowsBetweenClosedForm(1, year - 1);
  }

  /** renderTableRows: one row for year 1 and three for every later year; the
      grade and position cells that start at a year sit on its first row. The
      cells emitted are exactly the bands' cells, in order, so each column's
      row spans add up to the 58 rows of the table. */
  method RenderTableRows(e: Education, data: YearlyTable) returns (rows: seq<Row>)
    ensures |rows| == 58
    ensures LevelCells(rows) == BandCells(Structure(e).levels)
    ensures PositionCells(rows) == BandCells(Structure(e).positions)
    ensures SpanTotal(LevelCells(rows)) == |rows| && SpanTotal(PositionCells(rows)) == |rows|
    ensures forall k :: 0 <= k < |rows| ==>
              1 <= rows[k].year <= 20 && rows[k].value == YearValue(data, rows[k].year, rows[k].tier)
    ensures forall k :: 0 <= k < |rows| && rows[k].year > 1 && rows[k].tier == High ==>
              rows[k].increase == IncreaseAmount(data, rows[k].year)
              && rows[k].rate == IncreaseRate(data, rows[k].year)
    ensures forall k :: 0 <= k < |rows| && (rows[k].year == 1 || rows[k].tier != High) ==>
              rows[k].increase.None? && rows[k].rate.None?
    ensures LaidOut(rows, Structure(e).levels, Structure(e).positions, 20)
    ensures forall k :: 0 <= k < |rows| ==> rows[k].year == YearOfIndex(k)
    ensures forall k :: 0 <= k < |rows| && rows[k].level.Some? ==>
              k == RowsBetween(1, YearOfIndex(k) - 1) && FindByStart(Structure(e).levels, YearOfIndex(k)).Some?
    ensures forall k :: 0 <= k < |rows| && rows[k].position.Some? ==>
              k == RowsBetween(1, YearOfIndex(k) - 1) && FindByStart(Structure(e).positions, YearOfIndex(k)).Some?
  {
    StructureTiles(e);
    var levels := Structure(e).levels;
    var positions := Structure(e).positions;
    rows := RenderRows(levels, positions, data);
    TilingSpans(levels, 1, 20);
    TilingSpans(positions, 1, 20);
    RowsBetweenClosedForm(1, 20);
    CellsOnFirstRows(rows, levels, positions);
  }

  // ---------------------------------------------------------------------
  // Position averages

  /** The rounded averages of one position. */
  datatype Averages = Averages(avgLow: int, avgMiddle: int, avgHigh: int)

  /** What one year adds to the list of a field: year 1 adds its middle (if
      set) to every list, a later year its own value of the field (if set); a
      year missing from the table adds nothing. */
  function YearContribution(data: YearlyTable, year: int, f: Field): seq<int>
  {
    if year !in data then []
    else if year == 1 then (if data[1].middle.Some? then [data[1].middle.value] else [])
    else if data[year].Get(f).Some? then [data[year].Get(f).value] else []
  }

  /** The values of years first..last collected for one field, in order. */
  function Contributions(data: YearlyTable, first: int, last: int, f: Field): seq<int>
    decreases last - first
  {
    if last < first then [] else Contributions(data, first, last - 1, f) + YearContribution(data, last, f)
  }

  /** A value is collected only from a year the table holds. */
  lemma {:induction false} ContributionsFromTable(data: YearlyTable, first: int, last: int, f: Field)
    ensures |Contributions(data, first, last, f)| > 0 ==> exists year :: first <= year <= last && year in data
    decreases last - first
  {
    if last >= first {
      ContributionsFromTable(data, first, last - 1, f);
      if YearContribution(data, last, f) != [] {
        assert last in data;
      }
    }
  }

  /** Math.round of the mean of a non-empty list. */
  function RoundedMean(xs: seq<int>): (r: int)
    requires |xs| > 0
    ensures r as real - 0.5 <= GeminiService.Mean(xs) < r as real + 0.5
  {
    JsRound(GeminiService.Mean(xs))
  }

  /** The averages of a position: null unless every field collected a value. */
  function PositionAverageOf(data: YearlyTable, b: Band): (avg: Option<Averages>)
    ensures b.end < b.start ==> avg.None?
    ensures avg.Some? ==> exists year :: b.start <= year <= b.end && year in data
  {
    ContributionsFromTable(data, b.start, b.end, Low);
    var lows := Contributions(data, b.start, b.end, Low);
    var middles := Contributions(data, b.start, b.end, Middle);
    var highs := Contributions(data, b.start, b.end, High);
    if |lows| > 0 && |middles| > 0 && |highs| > 0 then
      Some(Averages(RoundedMean(lows), RoundedMean(middles), RoundedMean(highs)))
    else None
  }

  /** The averages of one position, collecting year by year. */
  method PositionAverage(data: YearlyTable, b: Band) returns (avg: Option<Averages>)
    ensures avg == PositionAverageOf(data, b)
  {
    var lows: seq<int> := [];
    var middles: seq<int> := [];
    var highs: seq<int> := [];
    var year := b.start;
    while year <= b.end
      invariant year == b.start || b.start <= year <= b.end + 1
      invariant lows == Contributions(data, b.start, year - 1, Low)
      invariant middles == Contributions(data, b.start, year - 1, Middle)
      invariant highs == Contributions(data, b.start, year - 1, High)
      decreases b.end - year
    {
      if year in data {
        var yearData := data[year];
        if year == 1 {
          if yearData.middle.Some? {
            lows := lows + [yearData.middle.value];
            middles := middles + [yearData.middle.value];
            highs := highs + [yearData.middle.value];
          }
        } else {
          if yearData.low.Some? {
            lows := lows + [yearData.low.value];
          }
          if yearData.middle.Some? {
            middles := middles + [yearData.middle.value];
          }
          if yearData.high.Some? {
            highs := highs + [yearData.high.value];
          }
        }
      }
      year := year + 1;
    }
    if |lows| > 0 && |middles| > 0 && |highs| > 0 {
      avg := Some(Averages(RoundedMean(lows), RoundedMean(middles), RoundedMean(highs)));
    } else {
      avg := None;
    }
  }

  /** positionAverageSalaries: the averages of every position of an education,
      by position name. */
  method PositionAverageSalaries(e: Education, data: YearlyTable) returns (averages: map<string, Option<Averages>>)
    ensures forall i :: 0 <= i < |Structure(e).positions| ==>
              Structure(e).positions[i].name in averages
              && averages[Structure(e).positions[i].name] == PositionAverageOf(data, Structure(e).positions[i])
    ensures averages.Keys == NameSet(Structure(e).positions)
  {
    PositionNamesDistinct();
    averages := AveragesByName(Positions, data);
    assert Structure(e).positions == Positions;
  }

  /** The names of a list of bands. */
  function NameSet(bands: seq<Band>): (names: set<string>)
    ensures forall i :: 0 <= i < |bands| ==> bands[i].name in names
    ensures forall n :: n in names ==> exists i :: 0 <= i < |bands| && bands[i].name == n
  {
    if bands == [] then {} else NameSet(bands[..|bands| - 1]) + {bands[|bands| - 1].name}
  }

  /** No two positions share a name. */
  predicate NamesDistinct(bands: seq<Band>)
  {
    forall i, j :: 0 <= i < j < |bands| ==> bands[i].name != bands[j].name
  }

  lemma PositionNamesDistinct()
    ensures NamesDistinct(Positions)
  {
    assert forall i, j :: 0 <= i < j < |Positions| ==> Positions[i].name[0] != Positions[j].name[0];
  }

  /** The averages of a list of positions with distinct names, by name. */
  method AveragesByName(positions: seq<Band>, data: YearlyTable) returns (averages: map<string, Option<Averages>>)
    requires NamesDistinct(positions)
    ensures forall i :: 0 <= i < |positions| ==>
              positions[i].name in averages && averages[positions[i].name] == PositionAverageOf(data, positions[i])
    ensures averages.Keys == NameSet(positions)
  {
    averages := map[];
    var i := 0;
    while i < |positions|
      invariant 0 <= i <= |positions|
      invariant forall j :: 0 <= j < i ==>
                  positions[j].name in averages && averages[positions[j].name] == PositionAverageOf(data, positions[j])
      invariant averages.Keys == NameSet(positions[..i])
    {
      var avg := PositionAverage(data, positions[i]);
      StoreKeepsEarlier(positions, data, averages, i, avg);
      averages := averages[positions[i].name := avg];
      assert positions[..i + 1][..i] == positions[..i];
      i := i + 1;
    }
    assert positions[..i] == positions;
  }

  /** Storing position i's averages under its name keeps the averages stored
      for the earlier positions, whose names differ. */
  lemma StoreKeepsEarlier(positions: seq<Band>, data: YearlyTable, averages: map<string, Option<Averages>>,
                          i: int, avg: Option<Averages>)
    requires NamesDistinct(positions) && 0 <= i < |positions|
    requires forall j :: 0 <= j < i ==>
               positions[j].name in averages && averages[positions[j].name] == PositionAverageOf(data, positions[j])
    requires avg == PositionAverageOf(data, positions[i])
    ensures forall j :: 0 <= j <= i ==>
              positions[j].name in averages[positions[i].name := avg]
              && averages[positions[i].name := avg][positions[j].name] == PositionAverageOf(data, positions[j])
  {
  }

  function SeqMin(xs: seq<int>): int
    requires |xs| > 0
  {
    if |xs| == 1 then xs[0]
    else var m := SeqMin(xs[..|xs| - 1]); if xs[|xs| - 1] < m then xs[|xs| - 1] else m
  }

  function SeqMax(xs: seq<int>): int
    requires |xs| > 0
  {
    if |xs| == 1 then xs[0]
    else var m := SeqMax(xs[..|xs| - 1]); if xs[|xs| - 1] > m then xs[|xs| - 1] else m
  }

  lemma {:induction false} SeqMinMaxBound(xs: seq<int>)
    requires |xs| > 0
    ensures forall i :: 0 <= i < |xs| ==> SeqMin(xs) <= xs[i] <= SeqMax(xs)
  {
    if |xs| > 1 {
      SeqMinMaxBound(xs[..|xs| - 1]);
      assert forall i :: 0 <= i < |xs| - 1 ==> xs[i] == xs[..|xs| - 1][i];
    }
  }

  lemma {:induction false} SumAtLeast(xs: seq<int>, m: int)
    requires forall i :: 0 <= i < |xs| ==> m <= xs[i]
    ensures |xs| * m <= GeminiService.Sum(xs)
  {
    if xs != [] {
      var init := xs[..|xs| - 1];
      assert forall i :: 0 <= i < |init| ==> init[i] == xs[i];
      SumAtLeast(init, m);
      assert |xs| * m == |init| * m + m;
    }
  }

  lemma {:induction false} SumAtMost(xs: seq<int>, m: int)
    requires forall i :: 0 <= i < |xs| ==> xs[i] <= m
    ensures GeminiService.Sum(xs) <= |xs| * m
  {
    if xs != [] {
      var init := xs[..|xs| - 1];
      assert forall i :: 0 <= i < |init| ==> init[i] == xs[i];
      SumAtMost(init, m);
      assert |xs| * m == |init| * m + m;
    }
  }

  lemma SumBetween(xs: seq<int>)
    requires |xs| > 0
    ensures |xs| * SeqMin(xs) <= GeminiService.Sum(xs) <= |xs| * SeqMax(xs)
  {
    SeqMinMaxBound(xs);
    SumAtLeast(xs, SeqMin(xs));
    SumAtMost(xs, SeqMax(xs));
  }

  lemma QuotientBetween(s: int, n: int, lo: int, hi: int)
    requires n > 0 && n * lo <= s <= n * hi
    ensures lo as real <= s as real / n as real <= hi as real
  {
    assert (n * lo) as real == n as real * lo as real;
    assert (n * hi) as real == n as real * hi as real;
    assert s as real / n as real * n as real == s as real;
  }

  /** A rounded average lies between the smallest and the largest value it
      averages. */
  lemma RoundedMeanBetween(xs: seq<int>)
    requires |xs| > 0
    ensures SeqMin(xs) <= RoundedMean(xs) <= SeqMax(xs)
  {
    SumBetween(xs);
    QuotientBetween(GeminiService.Sum(xs), |xs|, SeqMin(xs), SeqMax(xs));
    JsRoundBetween(GeminiService.Mean(xs), SeqMin(xs), SeqMax(xs));
  }

  /** Two lists of equal length, the first below the second element by element. */
  predicate Below(xs: seq<int>, ys: seq<int>)
  {
    |xs| == |ys| && forall i :: 0 <= i < |xs| ==> xs[i] <= ys[i]
  }

  lemma {:induction false} SumBelow(xs: seq<int>, ys: seq<int>)
    requires Below(xs, ys)
    ensures GeminiService.Sum(xs) <= GeminiService.Sum(ys)
  {
    if xs != [] {
      SumBelow(xs[..|xs| - 1], ys[..|ys| - 1]);
    }
  }

  lemma RoundedMeanBelow(xs: seq<int>, ys: seq<int>)
    requires |xs| > 0 && Below(xs, ys)
    ensures RoundedMean(xs) <= RoundedMean(ys)
  {
    SumBelow(xs, ys);
    var n := |xs| as real;
    assert GeminiService.Mean(xs) * n == GeminiService.Sum(xs) as real;
    assert GeminiService.Mean(ys) * n == GeminiService.Sum(ys) as real;
    JsRoundMonotone(GeminiService.Mean(xs), GeminiService.Mean(ys));
  }

  /** Every year of the range is in the table with low <= middle <= high set. */
  predicate OrderedYears(data: YearlyTable, first: int, last: int)
  {
    forall y :: first <= y <= last ==>
      y in data && data[y].low.Some? && data[y].middle.Some? && data[y].high.Some?
      && data[y].low.value <= data[y].middle.value <= data[y].high.value
  }

  lemma {:induction false} ContributionsBelow(data: YearlyTable, first: int, last: int)
    requires OrderedYears(data, first, last)
    ensures |Contributions(data, first, last, Low)| == |Contributions(data, first, last, Middle)|
            == |Contributions(data, first, last, High)| == if last < first then 0 else last - first + 1
    ensures Below(Contributions(data, first, last, Low), Contributions(data, first, last, Middle))
    ensures Below(Contributions(data, first, last, Middle), Contributions(data, first, last, High))
    decreases last - first
  {
    if first <= last {
      ContributionsBelow(data, first, last - 1);
    }
  }

  /** Each average lies between the smallest and largest value collected for
      its field; and when every year of the position has low <= middle <=
      high set, the averages exist and keep that order. */
  lemma PositionAveragesBounded(data: YearlyTable, b: Band)
    ensures var avg := PositionAverageOf(data, b);
      avg.Some? ==>
        var lows := Contributions(data, b.start, b.end, Low);
        var middles := Contributions(data, b.start, b.end, Middle);
        var highs := Contributions(data, b.start, b.end, High);
        SeqMin(lows) <= avg.value.avgLow <= SeqMax(lows)
        && SeqMin(middles) <= avg.value.avgMiddle <= SeqMax(middles)
        && SeqMin(highs) <= avg.value.avgHigh <= SeqMax(highs)
  {
    var avg := PositionAverageOf(data, b);
    if avg.Some? {
      RoundedMeanBetween(Contributions(data, b.start, b.end, Low));
      RoundedMeanBetween(Contributions(data, b.start, b.end, Middle));
      RoundedMeanBetween(Contributions(data, b.start, b.end, High));
    }
  }

  lemma PositionAveragesOrdered(data: YearlyTable, b: Band)
    requires b.start <= b.end && OrderedYears(data, b.start, b.end)
    ensures var avg := PositionAverageOf(data, b);
      avg.Some? && avg.value.avgLow <= avg.value.avgMiddle <= avg.value.avgHigh
  {
    ContributionsBelow(data, b.start, b.end);
    RoundedMeanBelow(Contributions(data, b.start, b.end, Low), Contributions(data, b.start, b.end, Middle));
    RoundedMeanBelow(Contributions(data, b.start, b.end, Middle), Contributions(data, b.start, b.end, High));
  }

  // ---------------------------------------------------------------------
  // Cell text

  /** formatFullCurrency: '-' for null or NaN, otherwise '₩' and the amount in
      won (the table holds units of 10,000 won), grouped by three. */
  function FormatFullCurrency(value: Option<Parsed>): (s: string)
    ensures s == "-" <==> value.None? || value.value.NaN?
    ensures s != "-" ==> |s| > 1 && s[0] == '₩'
  {
    if value.None? || value.value.NaN? then "-"
    else "₩" + LocaleString(value.value.n * 10000)
  }

  /** The currency text reads back as the amount in won once the sign '₩' and
      the grouping commas are dropped. */
  lemma FullCurrencyRoundTrip(n: int)
    ensures var s := FormatFullCurrency(Some(Num(n)));
      |s| > 1 && s[0] == '₩' && ParseInt(WithoutCommas(s[1..])) == Num(n * 10000)
  {
    var s := FormatFullCurrency(Some(Num(n)));
    var m := n * 10000;
    assert s[1..] == LocaleString(m);
    LocaleStringWithoutCommas(m);
    ParseIntOfNumberToString(m);
  }

  /** SalaryInput.handleChange: the empty field is null, anything else is
      parseInt of the text. */
  function HandleChange(text: string): (v: Option<Parsed>)
    ensures v.None? <==> text == ""
  {
    if text == "" then None else Some(ParseInt(text))
  }

  /** The text a SalaryInput shows for a value: `value ?? ''`. */
  function InputText(value: Option<int>): (text: string)
    ensures text == "" <==> value.None?
    ensures value.Some? ==> IsNumeral(text) && (value.value < 0 <==> text[0] == '-')
  {
    if value.Some? then NumberToString(value.value) else ""
  }

  /** Reading back the text the input shows gives the value it shows. */
  lemma InputRoundTrip(value: Option<int>)
    ensures HandleChange(InputText(value)) == if value.Some? then Some(Num(value.value)) else None
  {
    if value.Some? {
      ParseIntOfNumberToString(value.value);
    }
  }
}
