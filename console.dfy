/** The printing functions, each appending to standard output. The stream is
    modelled by the text written to it so far; its fill character, width and
    std::ios::left flag are not state here but are encoded in each call of
    Padded, with the values they have at that point of the source. */
module Output {
  import opened Text
  import opened Digits
  import opened Currency
  import opened Layout

  /** std::cout. */
  class Console {
    var text: string

    constructor ()
      ensures text == []
    {
      text := [];
    }

    /** printTitle: `width(left padding)`, `<< ' '`, the title, a line break. */
    method PrintTitle(title: string)
      requires |title| <= TitleWidth
      modifies this
      ensures text == old(text) + TitleLine(title)
    {
      ghost var start := text;
      var pad := Padded(LeftPadding(TitleWidth, |title|), " ", false, ' ');
      text := text + pad;
      text := text + title + ['\n'];
      AppendAssoc(start, pad + title, ['\n']);
      AppendAssoc(start, pad, title);
    }

    /** printHorizontalLine: put('+') and fill '-', then per column
        `width(w) << '-' << '+'`, then fill ' ' and a line break. */
    method PrintHorizontalLine(colWidth: seq<int>)
      modifies this
      ensures text == old(text) + HorizontalLine(colWidth)
    {
      ghost var cells := DashCells(colWidth);
      text := text + ['+'];
      ghost var prefix := text;
      for i := 0 to |colWidth|
        invariant text == prefix + Cells(cells[..i], '+')
      {
        ghost var done := Cells(cells[..i], '+');
        text := text + Padded(colWidth[i], "-", false, '-') + ['+'];
        CellsSnoc(cells, i, '+');
        AppendAssoc(prefix, done + cells[i], ['+']);
        AppendAssoc(prefix, done, cells[i]);
      }
      assert cells[..|colWidth|] == cells;
      text := text + ['\n'];
      AppendAssoc(old(text), ['+'] + Cells(cells, '+'), ['\n']);
      AppendAssoc(old(text), ['+'], Cells(cells, '+'));
    }

    /** printHeaders: put('|'), then per label its two paddings around it and
        a bar, then a line break. */
    method PrintHeaders(labels: seq<string>, colWidth: seq<int>)
      requires LabelsFit(labels, colWidth)
      modifies this
      ensures text == old(text) + HeaderRow(labels, colWidth)
    {
      ghost var cells := HeaderCells(labels, colWidth);
      text := text + ['|'];
      ghost var prefix := text;
      for i := 0 to |labels|
        invariant text == prefix + Cells(cells[..i], '|')
      {
        ghost var done := Cells(cells[..i], '|');
        var leftPadding := LeftPadding(colWidth[i], |labels[i]|);
        var rightPadding := RightPadding(colWidth[i], |labels[i]|);
        var cell := Padded(leftPadding, " ", false, ' ') + labels[i] + Padded(rightPadding, " ", false, ' ');
        text := text + cell + ['|'];
        assert text == prefix + Cells(cells[..i + 1], '|') by {
          assert cell == cells[i];
          CellsSnoc(cells, i, '|');
          AppendAssoc(prefix, done + cells[i], ['|']);
          AppendAssoc(prefix, done, cells[i]);
        }
      }
      assert cells[..|labels|] == cells;
      text := text + ['\n'];
      assert HeaderRow(labels, colWidth) == ['|'] + Cells(cells, '|') + ['\n'];
      AppendAssoc(old(text), ['|'] + Cells(cells, '|'), ['\n']);
      AppendAssoc(old(text), ['|'], Cells(cells, '|'));
    }

    /** One pass of printBody's country loop without the separator: the
        opening bar and padded country name, then for each city a blank first
        cell unless it is the first city (the isnFirstRow flag), and the rest
        of the city's row. */
    method PrintCountry(country: Country, colWidth: seq<int>, costText: Money -> string)
      requires |colWidth| == ColumnCount
      modifies this
      ensures text == old(text) + CountryText(country, colWidth, costText)
    {
      var isnFirstRow := false;
      var nameCell := ['|'] + Padded(colWidth[0], country.name, true, ' ');
      text := text + nameCell;
      for j := 0 to |country.cities|
        invariant isnFirstRow == (j > 0)
        invariant j == 0 ==> text == old(text) + nameCell
        invariant j > 0 ==> text == old(text) + CountryRows(country, colWidth, costText, j)
      {
        var city := country.cities[j];
        var blankCell := ['|'] + Padded(colWidth[0], " ", true, ' ');
        if isnFirstRow {
          text := text + blankCell;
        }
        var rest := ['|'] + Padded(colWidth[1], city.name, true, ' ')
                    + ['|'] + Padded(colWidth[2], IntDecimal(city.population), true, ' ')
                    + ['|'] + Padded(colWidth[3], costText(city.cost), true, ' ')
                    + ['|'] + ['\n'];
        text := text + rest;
        assert text == old(text) + CountryRows(country, colWidth, costText, j + 1) by {
          assert nameCell == LeadCell(true, country.name, colWidth[0]);
          assert blankCell == LeadCell(false, country.name, colWidth[0]);
          assert rest == RowRest(city, colWidth, costText);
          CountryRowsNext(country, colWidth, costText, j);
          if j == 0 {
            AppendAssoc(old(text), nameCell, rest);
          } else {
            ghost var rows := CountryRows(country, colWidth, costText, j);
            AppendAssoc(old(text), rows, blankCell + rest);
            AppendAssoc(old(text) + rows, blankCell, rest);
          }
        }
        isnFirstRow := true;
      }
    }

    /** printBody: with std::ios::left set, each of the colWidth.size()
        countries, and the dashed separator after every one but the last. */
    method PrintBody(tour: Tours, colWidth: seq<int>, costText: Money -> string)
      requires BodyDefined(tour, colWidth)
      modifies this
      ensures text == old(text) + Body(tour, colWidth, costText)
    {
      for i := 0 to |colWidth|
        invariant text == old(text) + BodyUpTo(tour, colWidth, costText, i)
      {
        ghost var before := text;
        PrintCountry(tour.countries[i], colWidth, costText);
        ghost var countryText := CountryText(tour.countries[i], colWidth, costText);
        ghost var separator := if i != |colWidth| - 1 then SeparatorLine() else [];
        if i != |colWidth| - 1 {
          text := text + (Padded(SeparatorWidth, "-", true, '-') + ['\n']);
        }
        assert text == before + countryText + separator;
        ghost var done := BodyUpTo(tour, colWidth, costText, i);
        AppendAssoc(old(text), done + countryText, separator);
        AppendAssoc(old(text), done, countryText);
      }
    }

    /** main's sequence of calls, with the tour listing as a parameter. */
    method PrintTable(tour: Tours, labels: seq<string>, colWidth: seq<int>, costText: Money -> string)
      requires BodyDefined(tour, colWidth) && |tour.title| <= TitleWidth && LabelsFit(labels, colWidth)
      modifies this
      ensures text == old(text) + Table(tour, labels, colWidth, costText)
    {
      ghost var start := text;
      PrintTitle(tour.title);
      PrintHorizontalLine(colWidth);
      PrintHeaders(labels, colWidth);
      PrintHorizontalLine(colWidth);
      PrintBody(tour, colWidth, costText);
      PrintHorizontalLine(colWidth);
      ghost var title, line := TitleLine(tour.title), HorizontalLine(colWidth);
      ghost var header, body := HeaderRow(labels, colWidth), Body(tour, colWidth, costText);
      assert text == start + title + line + header + line + body + line;
      AppendGrouped(start, title, line, header, line, body, line);
    }
  }
}
