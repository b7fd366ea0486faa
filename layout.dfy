/** The ASCII layout of the tour table, as the text each printing function
    appends to standard output. Every line of the table is a "framed" line:
    a bar, then each cell followed by a bar, then a line break. Border lines
    use '+' as the bar and runs of '-' as cells; the header and body rows use
    '|' as the bar. */
module Layout {
  import opened Text
  import opened Digits
  import opened Currency

  const INT32_MIN: int := -0x8000_0000
  const INT32_MAX: int := 0x7FFF_FFFF

  predicate IsInt32(x: int) { INT32_MIN <= x <= INT32_MAX }

  datatype City = City(name: string, population: int, cost: Money)
  datatype Country = Country(name: string, cities: seq<City>)
  datatype Tours = Tours(title: string, countries: seq<Country>)

  /** The four columns: country, city, population, cost. */
  const ColumnCount: nat := 4
  /** printTitle centres over this fixed width, whatever the columns are. */
  const TitleWidth: nat := 62
  /** Width of the dashed rule printed between countries. */
  const SeparatorWidth: nat := 67

  // ---------------------------------------------------------------------
  // Widths and padding

  /** calculateMargin: the column is widened by `margin` on both sides. All of
      it is int32_t arithmetic, which must not overflow. */
  function CalculateMargin(value: int, margin: int := 1): (r: int)
    requires IsInt32(value) && IsInt32(margin) && IsInt32(margin * 2) && IsInt32(value + margin * 2)
    ensures r == value + 2 * margin
  {
    value + margin * 2
  }

  /** calculateLeftPadding: half the free space, rounded down. The subtraction
      is done in size_t, so the source requires the text to fit. */
  function LeftPadding(totalCol: int, strSize: nat): (r: nat)
    requires strSize <= totalCol
    ensures 2 * r <= totalCol - strSize <= 2 * r + 1
  {
    (totalCol - strSize) / 2
  }

  /** calculateRightPadding: the rest of the free space, so the text is centred
      with the odd space, if any, on the right. */
  function RightPadding(totalCol: int, strSize: nat): (r: nat)
    requires strSize <= totalCol
    ensures LeftPadding(totalCol, strSize) + strSize + r == totalCol
    ensures r - LeftPadding(totalCol, strSize) == (totalCol - strSize) % 2
  {
    totalCol - (LeftPadding(totalCol, strSize) + strSize)
  }

  /** The margin is what centring gives back: a text exactly as wide as the
      base value is padded with `margin` spaces on each side of its column. */
  lemma MarginCentres(value: nat, margin: nat)
    requires IsInt32(value) && IsInt32(margin * 2) && IsInt32(value + margin * 2)
    ensures value <= CalculateMargin(value, margin)
    ensures LeftPadding(CalculateMargin(value, margin), value) == margin
    ensures RightPadding(CalculateMargin(value, margin), value) == margin
  {
  }

  // ---------------------------------------------------------------------
  // Framed lines

  /** Each cell followed by the bar. */
  function Cells(cells: seq<string>, bar: char): string
  {
    if cells == [] then []
    else Cells(cells[..|cells| - 1], bar) + cells[|cells| - 1] + [bar]
  }

  /** A whole line: a bar, each cell followed by a bar, a line break. */
  function Framed(cells: seq<string>, bar: char): (r: string)
    ensures |r| >= 2 && r[0] == bar && r[|r| - 1] == '\n'
  {
    [bar] + Cells(cells, bar) + ['\n']
  }

  function SumLengths(cells: seq<string>): nat
  {
    if cells == [] then 0 else SumLengths(cells[..|cells| - 1]) + |cells[|cells| - 1]|
  }

  /** Position of the k-th bar of Framed(cells, _): it depends only on the cell lengths. */
  function BarOffset(cells: seq<string>, k: nat): nat
    requires k <= |cells|
  {
    k + SumLengths(cells[..k])
  }

  lemma {:induction false} CellsAppend(a: seq<string>, b: seq<string>, bar: char)
    ensures Cells(a + b, bar) == Cells(a, bar) + Cells(b, bar)
  {
    if b == [] {
      assert a + b == a;
    } else {
      var c := a + b;
      assert c[..|c| - 1] == a + b[..|b| - 1];
      CellsAppend(a, b[..|b| - 1], bar);
    }
  }

  /** Appending one more cell of the list to the cells done so far. */
  lemma CellsSnoc(cells: seq<string>, i: nat, bar: char)
    requires i < |cells|
    ensures Cells(cells[..i + 1], bar) == Cells(cells[..i], bar) + cells[i] + [bar]
  {
    assert cells[..i + 1][..i] == cells[..i];
  }

  lemma {:induction false} CellsLength(cells: seq<string>, bar: char)
    ensures |Cells(cells, bar)| == |cells| + SumLengths(cells)
  {
    if cells != [] {
      CellsLength(cells[..|cells| - 1], bar);
    }
  }

  lemma FramedLength(cells: seq<string>, bar: char)
    ensures |Framed(cells, bar)| == 2 + |cells| + SumLengths(cells)
  {
    CellsLength(cells, bar);
  }

  /** Cell k of `cells` stands in `line` between bar k and bar k + 1. */
  predicate CellAt(line: string, cells: seq<string>, bar: char, k: nat)
    requires k < |cells|
  {
    BarOffset(cells, k) + 1 <= BarOffset(cells, k + 1) < |line| &&
    line[BarOffset(cells, k)] == bar && line[BarOffset(cells, k + 1)] == bar &&
    line[BarOffset(cells, k) + 1 .. BarOffset(cells, k + 1)] == cells[k]
  }

  /** Cell k of a framed line lies between bar k and bar k + 1. */
  lemma FramedCellAt(cells: seq<string>, bar: char, k: nat)
    requires k < |cells|
    ensures BarOffset(cells, k + 1) == BarOffset(cells, k) + |cells[k]| + 1
    ensures CellAt(Framed(cells, bar), cells, bar, k)
  {
    var pre, rest := cells[..k], cells[k + 1..];
    assert cells == pre + [cells[k]] + rest;
    assert cells[..k + 1] == pre + [cells[k]];
    assert (pre + [cells[k]])[..k] == pre;
    CellsAppend(pre + [cells[k]], rest, bar);
    CellsAppend(pre, [cells[k]], bar);
    assert [cells[k]][..0] == [];
    assert Cells([cells[k]], bar) == cells[k] + [bar];
    CellsLength(pre, bar);
    var f := Framed(cells, bar);
    assert f == [bar] + Cells(pre, bar) + cells[k] + [bar] + Cells(rest, bar) + ['\n'];
    if k > 0 {
      assert Cells(pre, bar)[|Cells(pre, bar)| - 1] == bar;
    }
  }

  lemma {:induction false} CellsCount(x: char, cells: seq<string>, bar: char)
    requires forall i :: 0 <= i < |cells| ==> x !in cells[i]
    ensures Count(x, Cells(cells, bar)) == if x == bar then |cells| else 0
  {
    if cells != [] {
      var n := |cells| - 1;
      CellsCount(x, cells[..n], bar);
      CountAppend(x, Cells(cells[..n], bar) + cells[n], [bar]);
      CountAppend(x, Cells(cells[..n], bar), cells[n]);
      CountAbsent(x, cells[n]);
      CountOne(x, bar);
    }
  }

  /** A framed line holds |cells| + 1 bars and one line break, when no cell holds either. */
  lemma FramedCount(x: char, cells: seq<string>, bar: char)
    requires forall i :: 0 <= i < |cells| ==> x !in cells[i]
    ensures Count(x, Framed(cells, bar)) ==
      (if x == bar then |cells| + 1 else 0) + (if x == '\n' then 1 else 0)
  {
    CellsCount(x, cells, bar);
    CountAppend(x, [bar] + Cells(cells, bar), ['\n']);
    CountAppend(x, [bar], Cells(cells, bar));
    CountOne(x, bar);
    CountOne(x, '\n');
  }

  lemma {:induction false} BarOffsetsAgree(a: seq<string>, b: seq<string>, k: nat)
    requires |a| == |b| && k <= |a|
    requires forall i :: 0 <= i < |a| ==> |a[i]| == |b[i]|
    ensures BarOffset(a, k) == BarOffset(b, k)
  {
    if k > 0 {
      BarOffsetsAgree(a, b, k - 1);
      assert a[..k][..k - 1] == a[..k - 1];
      assert b[..k][..k - 1] == b[..k - 1];
    }
  }

  // ---------------------------------------------------------------------
  // Border lines (printHorizontalLine)

  /** `width(w)` then `<< '-'` with fill '-': w dashes, and one when w < 1. */
  function DashCell(width: int): (r: string)
    ensures r == Fill('-', Max(width, 1))
  {
    PaddedRun(width, '-', false);
    Padded(width, "-", false, '-')
  }

  function DashCells(colWidth: seq<int>): (r: seq<string>)
    ensures |r| == |colWidth|
    ensures forall i :: 0 <= i < |colWidth| ==> r[i] == DashCell(colWidth[i])
  {
    seq(|colWidth|, i requires 0 <= i < |colWidth| => DashCell(colWidth[i]))
  }

  /** printHorizontalLine's output. */
  function HorizontalLine(colWidth: seq<int>): string
  {
    Framed(DashCells(colWidth), '+')
  }

  function WidthSum(colWidth: seq<int>): int
  {
    if colWidth == [] then 0 else WidthSum(colWidth[..|colWidth| - 1]) + colWidth[|colWidth| - 1]
  }

  lemma {:induction false} DashLengths(colWidth: seq<int>)
    requires forall i :: 0 <= i < |colWidth| ==> colWidth[i] >= 1
    ensures SumLengths(DashCells(colWidth)) == WidthSum(colWidth)
  {
    if colWidth != [] {
      var n := |colWidth| - 1;
      assert DashCells(colWidth)[..n] == DashCells(colWidth[..n]);
      DashLengths(colWidth[..n]);
    }
  }

  /** A border line is '+', then for each column a run of max(w, 1) dashes
      and a '+'. */
  lemma HorizontalLineCells(colWidth: seq<int>)
    ensures forall k :: 0 <= k < |colWidth| ==>
      CellAt(HorizontalLine(colWidth), DashCells(colWidth), '+', k) &&
      DashCells(colWidth)[k] == Fill('-', Max(colWidth[k], 1))
  {
    forall k | 0 <= k < |colWidth|
      ensures CellAt(HorizontalLine(colWidth), DashCells(colWidth), '+', k)
    {
      FramedCellAt(DashCells(colWidth), '+', k);
    }
  }

  /** A border line holds one '+' more than there are columns, and one line break. */
  lemma HorizontalLineCounts(colWidth: seq<int>)
    ensures Count('+', HorizontalLine(colWidth)) == |colWidth| + 1
    ensures Count('\n', HorizontalLine(colWidth)) == 1
  {
    FramedCount('+', DashCells(colWidth), '+');
    FramedCount('\n', DashCells(colWidth), '+');
  }

  /** With positive widths a border line is 1 + sum(w + 1) characters before its line break. */
  lemma HorizontalLineLength(colWidth: seq<int>)
    requires forall i :: 0 <= i < |colWidth| ==> colWidth[i] >= 1
    ensures |HorizontalLine(colWidth)| == 2 + |colWidth| + WidthSum(colWidth)
  {
    FramedLength(DashCells(colWidth), '+');
    DashLengths(colWidth);
  }

  /** A framed line whose cells are exactly as wide as the columns is as long as
      the border line, and its bars stand at the offsets of the border's '+'. */
  lemma AlignedWithBorder(cells: seq<string>, bar: char, colWidth: seq<int>)
    requires |cells| == |colWidth|
    requires forall i :: 0 <= i < |cells| ==> colWidth[i] >= 1 && |cells[i]| == colWidth[i]
    ensures |Framed(cells, bar)| == |HorizontalLine(colWidth)|
    ensures forall k :: 0 <= k < |cells| ==>
      BarOffset(cells, k) == BarOffset(DashCells(colWidth), k) &&
      CellAt(Framed(cells, bar), cells, bar, k) &&
      CellAt(HorizontalLine(colWidth), DashCells(colWidth), '+', k)
  {
    var dashes := DashCells(colWidth);
    forall k | 0 <= k <= |cells|
      ensures BarOffset(cells, k) == BarOffset(dashes, k)
    {
      BarOffsetsAgree(cells, dashes, k);
    }
    FramedLength(cells, bar);
    FramedLength(dashes, '+');
    assert cells[..|cells|] == cells && dashes[..|dashes|] == dashes;
    HorizontalLineCells(colWidth);
    forall k | 0 <= k < |cells|
      ensures CellAt(Framed(cells, bar), cells, bar, k)
    {
      FramedCellAt(cells, bar, k);
    }
  }

  // ---------------------------------------------------------------------
  // Header row (printHeaders) and title (printTitle)

  /** One header cell: `setw(left) << ' '`, the heading, `setw(right) << ' '`. */
  function HeaderCell(width: int, heading: string): string
    requires |heading| <= width
  {
    Padded(LeftPadding(width, |heading|), " ", false, ' ') + heading
      + Padded(RightPadding(width, |heading|), " ", false, ' ')
  }

  /** A header cell is the heading between two runs of spaces, the centring
      pads, each at least one space long: a pad of 0 still prints its one
      space. When the heading leaves two or more free spaces, the cell is
      exactly its column wide. */
  lemma HeaderCellSpaces(width: int, heading: string)
    requires |heading| <= width
    ensures HeaderCell(width, heading)
      == Fill(' ', Max(LeftPadding(width, |heading|), 1)) + heading
         + Fill(' ', Max(RightPadding(width, |heading|), 1))
    ensures width - |heading| >= 2 ==> |HeaderCell(width, heading)| == width
  {
    PaddedRun(LeftPadding(width, |heading|), ' ', false);
    PaddedRun(RightPadding(width, |heading|), ' ', false);
  }

  predicate LabelsFit(labels: seq<string>, colWidth: seq<int>)
  {
    |labels| == |colWidth| && forall i :: 0 <= i < |labels| ==> |labels[i]| <= colWidth[i]
  }

  function HeaderCells(labels: seq<string>, colWidth: seq<int>): (r: seq<string>)
    requires LabelsFit(labels, colWidth)
    ensures |r| == |labels|
    ensures forall i :: 0 <= i < |labels| ==> r[i] == HeaderCell(colWidth[i], labels[i])
  {
    seq(|labels|, i requires 0 <= i < |labels| => HeaderCell(colWidth[i], labels[i]))
  }

  /** printHeaders's output. */
  function HeaderRow(labels: seq<string>, colWidth: seq<int>): string
    requires LabelsFit(labels, colWidth)
  {
    Framed(HeaderCells(labels, colWidth), '|')
  }

  /** When every label leaves at least two free spaces, each header cell is
      exactly its column wide with its label centred (the odd space on the
      right), and the header's bars stand where the border has its '+'. */
  lemma HeaderCentred(labels: seq<string>, colWidth: seq<int>)
    requires LabelsFit(labels, colWidth)
    requires forall i :: 0 <= i < |labels| ==> colWidth[i] - |labels[i]| >= 2
    ensures |HeaderRow(labels, colWidth)| == |HorizontalLine(colWidth)|
    ensures forall k :: 0 <= k < |labels| ==>
      LeftPadding(colWidth[k], |labels[k]|) >= 1 &&
      0 <= RightPadding(colWidth[k], |labels[k]|) - LeftPadding(colWidth[k], |labels[k]|) <= 1 &&
      HeaderCells(labels, colWidth)[k]
        == Fill(' ', LeftPadding(colWidth[k], |labels[k]|)) + labels[k]
           + Fill(' ', RightPadding(colWidth[k], |labels[k]|)) &&
      BarOffset(HeaderCells(labels, colWidth), k) == BarOffset(DashCells(colWidth), k) &&
      CellAt(HeaderRow(labels, colWidth), HeaderCells(labels, colWidth), '|', k)
  {
    var cells := HeaderCells(labels, colWidth);
    forall i | 0 <= i < |labels|
      ensures cells[i]
        == Fill(' ', LeftPadding(colWidth[i], |labels[i]|)) + labels[i]
           + Fill(' ', RightPadding(colWidth[i], |labels[i]|))
      ensures |cells[i]| == colWidth[i]
    {
      HeaderCellSpaces(colWidth[i], labels[i]);
    }
    AlignedWithBorder(cells, '|', colWidth);
  }

  /** printTitle's output: the title centred over TitleWidth columns (the odd
      space on the right, which is not printed). A title too wide to leave two
      free columns still gets the one space printed before it. */
  function TitleLine(title: string): (r: string)
    requires |title| <= TitleWidth
    ensures |r| > |title| + 1
    ensures var pad := |r| - |title| - 1;
      r == Fill(' ', pad) + title + ['\n'] &&
      (|title| <= TitleWidth - 2 ==> TitleWidth - 1 <= 2 * pad + |title| <= TitleWidth) &&
      (|title| > TitleWidth - 2 ==> pad == 1)
  {
    PaddedRun(LeftPadding(TitleWidth, |title|), ' ', false);
    Padded(LeftPadding(TitleWidth, |title|), " ", false, ' ') + title + ['\n']
  }

  // ---------------------------------------------------------------------
  // Body (printBody)

  /** The source's loop runs over colWidth.size() countries and reads them by index. */
  predicate BodyDefined(tour: Tours, colWidth: seq<int>)
  {
    |colWidth| == ColumnCount && |tour.countries| >= |colWidth|
  }

  /** The texts of one city row: the country name on the country's first row
      and a single blank after it, the city name, the population in decimal
      and the cost text. */
  function RowTexts(first: bool, countryName: string, city: City, costText: Money -> string): (r: seq<string>)
    ensures |r| == ColumnCount
  {
    [if first then countryName else " ", city.name, IntDecimal(city.population), costText(city.cost)]
  }

  /** The row's cells: each text left-justified (std::ios::left is set) and
      padded with spaces to its column's width. */
  function RowCells(first: bool, countryName: string, city: City, colWidth: seq<int>,
                    costText: Money -> string): (r: seq<string>)
    requires |colWidth| == ColumnCount
    ensures |r| == ColumnCount
    ensures forall i :: 0 <= i < ColumnCount ==>
      r[i] == Padded(colWidth[i], RowTexts(first, countryName, city, costText)[i], true, ' ')
  {
    [Padded(colWidth[0], if first then countryName else " ", true, ' '),
     Padded(colWidth[1], city.name, true, ' '),
     Padded(colWidth[2], IntDecimal(city.population), true, ' '),
     Padded(colWidth[3], costText(city.cost), true, ' ')]
  }

  function CityRow(first: bool, countryName: string, city: City, colWidth: seq<int>,
                   costText: Money -> string): string
    requires |colWidth| == ColumnCount
  {
    Framed(RowCells(first, countryName, city, colWidth, costText), '|')
  }

  /** The first cell of a city row with its opening bar: the country name on
      the first row, a blank otherwise. */
  function LeadCell(first: bool, countryName: string, width: int): string
  {
    ['|'] + Padded(width, if first then countryName else " ", true, ' ')
  }

  /** The rest of a city row: city, population and cost cells, each with its
      opening bar, then the closing bar and the newline. */
  function RowRest(city: City, colWidth: seq<int>, costText: Money -> string): string
    requires |colWidth| == ColumnCount
  {
    ['|'] + Padded(colWidth[1], city.name, true, ' ')
    + ['|'] + Padded(colWidth[2], IntDecimal(city.population), true, ' ')
    + ['|'] + Padded(colWidth[3], costText(city.cost), true, ' ')
    + ['|'] + ['\n']
  }

  /** A city row written out, in the two parts printBody emits separately:
      the opening bar with the first cell, then the other cells, each after a
      bar, a closing bar and a line break. */
  lemma CityRowText(first: bool, countryName: string, city: City, colWidth: seq<int>,
                    costText: Money -> string)
    requires |colWidth| == ColumnCount
    ensures CityRow(first, countryName, city, colWidth, costText)
      == LeadCell(first, countryName, colWidth[0]) + RowRest(city, colWidth, costText)
  {
    var cells := RowCells(first, countryName, city, colWidth, costText);
    var c0, c1, c2, c3 := cells[0], cells[1], cells[2], cells[3];
    var bar, nl := ['|'], ['\n'];
    CellsSnoc(cells, 0, '|');
    CellsSnoc(cells, 1, '|');
    CellsSnoc(cells, 2, '|');
    CellsSnoc(cells, 3, '|');
    assert cells[..0] == [] && cells[..4] == cells;
    assert [] + c0 == c0;
    assert Cells(cells, '|') == c0 + bar + c1 + bar + c2 + bar + c3 + bar;
    RowRegroup(c0, c1, c2, c3);
  }

  /** A framed row of four cells, split after its first cell. */
  lemma RowRegroup(c0: string, c1: string, c2: string, c3: string)
    ensures ['|'] + (c0 + ['|'] + c1 + ['|'] + c2 + ['|'] + c3 + ['|']) + ['\n']
      == (['|'] + c0) + (['|'] + c1 + ['|'] + c2 + ['|'] + c3 + ['|'] + ['\n'])
  {
  }

  /** One row per city of a country; only the first carries the country's name. */
  function CityRows(country: Country, colWidth: seq<int>, costText: Money -> string): (r: seq<string>)
    requires |colWidth| == ColumnCount
    ensures |r| == |country.cities|
    ensures forall j :: 0 <= j < |r| ==> r[j] == CityRow(j == 0, country.name, country.cities[j], colWidth, costText)
  {
    seq(|country.cities|, j requires 0 <= j < |country.cities| =>
      CityRow(j == 0, country.name, country.cities[j], colWidth, costText))
  }

  /** The rows of the first n cities of a country. */
  function CountryRows(country: Country, colWidth: seq<int>, costText: Money -> string, n: nat): string
    requires |colWidth| == ColumnCount && n <= |country.cities|
  {
    Concat(CityRows(country, colWidth, costText)[..n])
  }

  /** The next city row, split where printBody splits it: the first row
      continues the name cell already printed, a later row starts with a blank
      cell of its own. */
  lemma CountryRowsNext(country: Country, colWidth: seq<int>, costText: Money -> string, j: nat)
    requires |colWidth| == ColumnCount && j < |country.cities|
    ensures CountryRows(country, colWidth, costText, j + 1)
      == if j == 0 then LeadCell(true, country.name, colWidth[0]) + RowRest(country.cities[j], colWidth, costText)
         else CountryRows(country, colWidth, costText, j)
              + (LeadCell(false, country.name, colWidth[0]) + RowRest(country.cities[j], colWidth, costText))
  {
    var rows := CityRows(country, colWidth, costText);
    ConcatSnoc(rows, j);
    assert rows[j] == CityRow(j == 0, country.name, country.cities[j], colWidth, costText);
    CityRowText(j == 0, country.name, country.cities[j], colWidth, costText);
    if j == 0 {
      assert CityRows(country, colWidth, costText)[..0] == [];
    }
  }

  /** What one country prints: its rows, or, with no city, only the opening bar
      and the padded name, without a line break. */
  function CountryText(country: Country, colWidth: seq<int>, costText: Money -> string): string
    requires |colWidth| == ColumnCount
  {
    if country.cities == [] then ['|'] + Padded(colWidth[0], country.name, true, ' ')
    else CountryRows(country, colWidth, costText, |country.cities|)
  }

  /** `setfill('-') << setw(67) << '-'` and a line break. */
  function SeparatorLine(): (r: string)
    ensures r == Fill('-', SeparatorWidth) + ['\n']
  {
    PaddedRun(SeparatorWidth, '-', true);
    Padded(SeparatorWidth, "-", true, '-') + ['\n']
  }

  /** The first k countries, each but the last of the colWidth.size() countries
      followed by the separator. */
  function BodyUpTo(tour: Tours, colWidth: seq<int>, costText: Money -> string, k: nat): string
    requires BodyDefined(tour, colWidth) && k <= |colWidth|
  {
    if k == 0 then []
    else BodyUpTo(tour, colWidth, costText, k - 1)
         + CountryText(tour.countries[k - 1], colWidth, costText)
         + (if k - 1 != |colWidth| - 1 then SeparatorLine() else [])
  }

  /** printBody's output. */
  function Body(tour: Tours, colWidth: seq<int>, costText: Money -> string): string
    requires BodyDefined(tour, colWidth)
  {
    BodyUpTo(tour, colWidth, costText, |colWidth|)
  }

  /** The whole table, in main's order: title, border, header, border, body, border. */
  function Table(tour: Tours, labels: seq<string>, colWidth: seq<int>, costText: Money -> string): string
    requires BodyDefined(tour, colWidth) && |tour.title| <= TitleWidth && LabelsFit(labels, colWidth)
  {
    TitleLine(tour.title) + HorizontalLine(colWidth) + HeaderRow(labels, colWidth)
      + HorizontalLine(colWidth) + Body(tour, colWidth, costText) + HorizontalLine(colWidth)
  }

  // ---------------------------------------------------------------------
  // Properties of the body

  /** Text that holds neither a column bar nor a line break. */
  predicate Plain(s: string)
  {
    '|' !in s && '\n' !in s
  }

  predicate CountryPlain(country: Country, costText: Money -> string)
  {
    Plain(country.name) &&
    forall j :: 0 <= j < |country.cities| ==>
      Plain(country.cities[j].name) && Plain(costText(country.cities[j].cost))
  }

  /** Every text of the first k countries is plain. */
  predicate TourPlain(tour: Tours, costText: Money -> string, k: nat)
    requires k <= |tour.countries|
  {
    forall i :: 0 <= i < k ==> CountryPlain(tour.countries[i], costText)
  }

  lemma RowCellsPlain(first: bool, countryName: string, city: City, colWidth: seq<int>,
                      costText: Money -> string, x: char)
    requires |colWidth| == ColumnCount && (x == '|' || x == '\n')
    requires Plain(countryName) && Plain(city.name) && Plain(costText(city.cost))
    ensures forall i :: 0 <= i < ColumnCount ==> x !in RowCells(first, countryName, city, colWidth, costText)[i]
  {
    var texts := RowTexts(first, countryName, city, costText);
    assert x !in texts[2];
    forall i | 0 <= i < ColumnCount
      ensures x !in RowCells(first, countryName, city, colWidth, costText)[i]
    {
      PaddedAvoids(x, colWidth[i], texts[i], true, ' ');
    }
  }

  /** Each city row is one line with five bars. */
  lemma CityRowCounts(first: bool, countryName: string, city: City, colWidth: seq<int>,
                      costText: Money -> string)
    requires |colWidth| == ColumnCount
    requires Plain(countryName) && Plain(city.name) && Plain(costText(city.cost))
    ensures Count('|', CityRow(first, countryName, city, colWidth, costText)) == ColumnCount + 1
    ensures Count('\n', CityRow(first, countryName, city, colWidth, costText)) == 1
  {
    var cells := RowCells(first, countryName, city, colWidth, costText);
    RowCellsPlain(first, countryName, city, colWidth, costText, '|');
    RowCellsPlain(first, countryName, city, colWidth, costText, '\n');
    FramedCount('|', cells, '|');
    FramedCount('\n', cells, '|');
  }

  /** Column k of a city row holds the k-th row text left-justified and
      space-padded (RowCells), so column 1 holds the country name on the
      first row and a blank on the others. */
  lemma CityRowShape(first: bool, countryName: string, city: City, colWidth: seq<int>,
                     costText: Money -> string)
    requires |colWidth| == ColumnCount
    ensures forall k :: 0 <= k < ColumnCount ==>
      CellAt(CityRow(first, countryName, city, colWidth, costText),
             RowCells(first, countryName, city, colWidth, costText), '|', k)
  {
    var cells := RowCells(first, countryName, city, colWidth, costText);
    forall k | 0 <= k < ColumnCount
      ensures CellAt(CityRow(first, countryName, city, colWidth, costText), cells, '|', k)
    {
      FramedCellAt(cells, '|', k);
    }
  }

  /** When every text fits its column and widths are positive, a city row is
      as long as the border and its bars stand where the border has its '+'. */
  lemma CityRowAligned(first: bool, countryName: string, city: City, colWidth: seq<int>,
                       costText: Money -> string)
    requires |colWidth| == ColumnCount
    requires forall i :: 0 <= i < ColumnCount ==>
      1 <= colWidth[i] && |RowTexts(first, countryName, city, costText)[i]| <= colWidth[i]
    ensures |CityRow(first, countryName, city, colWidth, costText)| == |HorizontalLine(colWidth)|
    ensures forall k :: 0 <= k < ColumnCount ==>
      BarOffset(RowCells(first, countryName, city, colWidth, costText), k) == BarOffset(DashCells(colWidth), k)
  {
    AlignedWithBorder(RowCells(first, countryName, city, colWidth, costText), '|', colWidth);
  }

  lemma CountryRowsLines(country: Country, colWidth: seq<int>, costText: Money -> string, n: nat)
    requires |colWidth| == ColumnCount && n <= |country.cities|
    requires CountryPlain(country, costText)
    ensures Count('\n', CountryRows(country, colWidth, costText, n)) == n
  {
    var rows := CityRows(country, colWidth, costText)[..n];
    forall j | 0 <= j < n
      ensures Count('\n', rows[j]) == 1
    {
      var city := country.cities[j];
      assert Plain(city.name) && Plain(costText(city.cost));
      CityRowCounts(j == 0, country.name, city, colWidth, costText);
    }
    ConcatCount('\n', rows);
  }

  /** A country prints one line per city (none when it has no city). */
  lemma CountryTextLines(country: Country, colWidth: seq<int>, costText: Money -> string)
    requires |colWidth| == ColumnCount
    requires CountryPlain(country, costText)
    ensures Count('\n', CountryText(country, colWidth, costText)) == |country.cities|
  {
    if country.cities == [] {
      PaddedAvoids('\n', colWidth[0], country.name, true, ' ');
      CountAbsent('\n', ['|'] + Padded(colWidth[0], country.name, true, ' '));
    } else {
      CountryRowsLines(country, colWidth, costText, |country.cities|);
    }
  }

  /** Number of cities of the first k countries. */
  function CitiesUpTo(tour: Tours, k: nat): nat
    requires k <= |tour.countries|
  {
    if k == 0 then 0 else CitiesUpTo(tour, k - 1) + |tour.countries[k - 1].cities|
  }

  lemma SeparatorLineCount()
    ensures Count('\n', SeparatorLine()) == 1
  {
    CountAbsent('\n', Fill('-', SeparatorWidth));
    CountAppend('\n', Fill('-', SeparatorWidth), ['\n']);
    CountOne('\n', '\n');
  }

  /** The first k countries print one line per city plus one separator line
      after each country but the last. */
  lemma {:induction false} BodyUpToLines(tour: Tours, colWidth: seq<int>, costText: Money -> string, k: nat)
    requires BodyDefined(tour, colWidth) && k <= |colWidth|
    requires TourPlain(tour, costText, k)
    ensures Count('\n', BodyUpTo(tour, colWidth, costText, k)) ==
      CitiesUpTo(tour, k) + (if k == |colWidth| then k - 1 else k)
  {
    if k > 0 {
      BodyUpToLines(tour, colWidth, costText, k - 1);
      var country := tour.countries[k - 1];
      var sep := if k - 1 != |colWidth| - 1 then SeparatorLine() else [];
      CountryTextLines(country, colWidth, costText);
      SeparatorLineCount();
      CountAppend('\n', BodyUpTo(tour, colWidth, costText, k - 1) + CountryText(country, colWidth, costText), sep);
      CountAppend('\n', BodyUpTo(tour, colWidth, costText, k - 1), CountryText(country, colWidth, costText));
    }
  }

  /** printBody reads only the first colWidth.size() countries. */
  lemma {:induction false} BodyUpToIgnoresRest(tour: Tours, colWidth: seq<int>, costText: Money -> string, k: nat)
    requires BodyDefined(tour, colWidth) && k <= |colWidth|
    ensures BodyDefined(Tours(tour.title, tour.countries[..|colWidth|]), colWidth)
    ensures BodyUpTo(tour, colWidth, costText, k)
         == BodyUpTo(Tours(tour.title, tour.countries[..|colWidth|]), colWidth, costText, k)
  {
    var kept := Tours(tour.title, tour.countries[..|colWidth|]);
    if k > 0 {
      BodyUpToIgnoresRest(tour, colWidth, costText, k - 1);
      assert kept.countries[k - 1] == tour.countries[k - 1];
    }
  }

  lemma BodyIgnoresRest(tour: Tours, colWidth: seq<int>, costText: Money -> string)
    requires BodyDefined(tour, colWidth)
    ensures BodyDefined(Tours(tour.title, tour.countries[..|colWidth|]), colWidth)
    ensures Body(tour, colWidth, costText) == Body(Tours(tour.title, tour.countries[..|colWidth|]), colWidth, costText)
  {
    BodyUpToIgnoresRest(tour, colWidth, costText, |colWidth|);
  }

  lemma TitleLineCount(title: string)
    requires |title| <= TitleWidth && '\n' !in title
    ensures Count('\n', TitleLine(title)) == 1
  {
    var pad := Padded(LeftPadding(TitleWidth, |title|), " ", false, ' ');
    assert TitleLine(title) == pad + title + ['\n'];
    PaddedAvoids('\n', LeftPadding(TitleWidth, |title|), " ", false, ' ');
    CountAbsent('\n', pad);
    CountAbsent('\n', title);
    CountAppend('\n', pad, title);
    CountAppend('\n', pad + title, ['\n']);
    CountOne('\n', '\n');
  }

  lemma HeaderCellAvoids(x: char, width: int, heading: string)
    requires |heading| <= width && x !in heading && x != ' '
    ensures x !in HeaderCell(width, heading)
  {
    PaddedAvoids(x, LeftPadding(width, |heading|), " ", false, ' ');
    PaddedAvoids(x, RightPadding(width, |heading|), " ", false, ' ');
  }

  lemma HeaderRowCount(labels: seq<string>, colWidth: seq<int>)
    requires LabelsFit(labels, colWidth)
    requires forall i :: 0 <= i < |labels| ==> '\n' !in labels[i]
    ensures Count('\n', HeaderRow(labels, colWidth)) == 1
  {
    var cells := HeaderCells(labels, colWidth);
    forall i | 0 <= i < |cells|
      ensures '\n' !in cells[i]
    {
      HeaderCellAvoids('\n', colWidth[i], labels[i]);
    }
    FramedCount('\n', cells, '|');
  }

  /** The table has one title line, three border lines, one header line, one
      line per city of the four countries and three separator lines. */
  lemma TableLines(tour: Tours, labels: seq<string>, colWidth: seq<int>, costText: Money -> string)
    requires BodyDefined(tour, colWidth) && |tour.title| <= TitleWidth && LabelsFit(labels, colWidth)
    requires '\n' !in tour.title && forall i :: 0 <= i < |labels| ==> '\n' !in labels[i]
    requires TourPlain(tour, costText, |colWidth|)
    ensures Count('\n', Table(tour, labels, colWidth, costText)) == CitiesUpTo(tour, ColumnCount) + 8
  {
    var title := TitleLine(tour.title);
    var line := HorizontalLine(colWidth);
    var header := HeaderRow(labels, colWidth);
    var body := Body(tour, colWidth, costText);
    TitleLineCount(tour.title);
    HorizontalLineCounts(colWidth);
    HeaderRowCount(labels, colWidth);
    BodyUpToLines(tour, colWidth, costText, |colWidth|);
    CountAppend('\n', title, line);
    CountAppend('\n', title + line, header);
    CountAppend('\n', title + line + header, line);
    CountAppend('\n', title + line + header + line, body);
    CountAppend('\n', title + line + header + line + body, line);
  }
}
