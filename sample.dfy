/** The program's own table: the tour listing, base widths and headings that
    main builds, the widths it derives, and the facts the layout lemmas give
    for that instance. The cost text stays a parameter, as everywhere else. */
module Sample {
  import opened Text
  import opened Currency
  import opened Layout
  import opened Output

  /** Country, city, population and cost, before the margin is added. */
  const BaseWidth: seq<int> := [11, 14, 13, 16]

  const Headers: seq<string> := ["Countries", "Cities", "Populations", "Costs"]

  /** The listing main prints; every cost is a whole amount with no cents. */
  const Colombia := Country("Colombia", [
    City("Bogota", 8778000, Money(1500000, 0)),
    City("Cali", 2401000, Money(2000000, 0)),
    City("Medellin", 2464000, Money(2300000, 0)),
    City("Cartagena", 972000, Money(1700000, 0))])
  const Brazil := Country("Brazil", [
    City("Rio De Janiero", 13500000, Money(2100000, 0)),
    City("Sao Paulo", 11310000, Money(2350000, 0)),
    City("Salvador", 18234000, Money(1450000, 0))])
  const Chile := Country("Chile", [
    City("Valdivia", 260000, Money(1200000, 0)),
    City("Santiago", 7040000, Money(1230000, 0))])
  const Argentina := Country("Argentina", [
    City("Buenos Aires", 3010000, Money(2100000, 0))])

  const SampleTours := Tours("Tour Ticket Prices from Miami", [Colombia, Brazil, Chile, Argentina])

  /** main's loop: each column width is the base width with the default
      margin of one on both sides. */
  method ColumnWidths(baseWidth: seq<int>) returns (columnWidth: array<int>)
    requires forall i :: 0 <= i < |baseWidth| ==> IsInt32(baseWidth[i]) && IsInt32(baseWidth[i] + 2)
    ensures fresh(columnWidth)
    ensures columnWidth.Length == |baseWidth|
    ensures forall i :: 0 <= i < |baseWidth| ==> columnWidth[i] == baseWidth[i] + 2
  {
    columnWidth := new int[|baseWidth|];
    for i := 0 to |baseWidth|
      invariant forall k :: 0 <= k < i ==> columnWidth[k] == baseWidth[k] + 2
    {
      columnWidth[i] := CalculateMargin(baseWidth[i]);
    }
  }

  /** main's widths are the base widths plus two: 13, 16, 15 and 18. */
  lemma SampleWidths(colWidth: seq<int>)
    requires |colWidth| == |BaseWidth|
    requires forall i :: 0 <= i < |BaseWidth| ==> colWidth[i] == BaseWidth[i] + 2
    ensures colWidth == [13, 16, 15, 18]
  {
  }

  /** The widths add up to the title width, and the border and the separator
      are both 67 characters and a line break. */
  lemma SampleBorder()
    ensures WidthSum([13, 16, 15, 18]) == TitleWidth
    ensures |HorizontalLine([13, 16, 15, 18])| == |SeparatorLine()| == SeparatorWidth + 1
  {
    var w: seq<int> := [13, 16, 15, 18];
    assert w[..3][..2] == w[..2] && w[..2][..1] == w[..1] && w[..1][..0] == [];
    assert WidthSum(w[..1]) == 13;
    assert WidthSum(w[..2]) == 29;
    assert WidthSum(w[..3]) == 44;
    assert w[..4] == w;
    HorizontalLineLength(w);
  }

  /** Every heading leaves at least two free spaces in its column, so the
      headings are centred and their bars stand under the border's '+'. */
  lemma SampleHeadersFit()
    ensures LabelsFit(Headers, [13, 16, 15, 18])
    ensures forall i :: 0 <= i < |Headers| ==> [13, 16, 15, 18][i] - |Headers[i]| >= 2
  {
  }


  lemma ColombiaNamesPlain()
    ensures Plain("Colombia") && Plain("Bogota") && Plain("Cali") && Plain("Medellin") && Plain("Cartagena")
  {
  }

  lemma BrazilNamesPlain()
    ensures Plain("Brazil") && Plain("Rio De Janiero") && Plain("Sao Paulo") && Plain("Salvador")
  {
  }

  lemma OtherNamesPlain()
    ensures Plain("Chile") && Plain("Valdivia") && Plain("Santiago")
    ensures Plain("Argentina") && Plain("Buenos Aires")
  {
  }

  lemma ColombiaPlain(costText: Money -> string)
    requires forall m :: Plain(costText(m))
    ensures CountryPlain(Colombia, costText)
  {
    ColombiaNamesPlain();
    forall j | 0 <= j < |Colombia.cities|
      ensures Plain(Colombia.cities[j].name)
    {
    }
  }

  lemma BrazilPlain(costText: Money -> string)
    requires forall m :: Plain(costText(m))
    ensures CountryPlain(Brazil, costText)
  {
    BrazilNamesPlain();
    forall j | 0 <= j < |Brazil.cities|
      ensures Plain(Brazil.cities[j].name)
    {
    }
  }

  lemma ChileAndArgentinaPlain(costText: Money -> string)
    requires forall m :: Plain(costText(m))
    ensures CountryPlain(Chile, costText) && CountryPlain(Argentina, costText)
  {
    OtherNamesPlain();
    forall j | 0 <= j < |Chile.cities|
      ensures Plain(Chile.cities[j].name)
    {
    }
  }

  lemma HeadingsPlain()
    ensures '\n' !in SampleTours.title
    ensures forall i :: 0 <= i < |Headers| ==> '\n' !in Headers[i]
  {
    TitlePlain();
    assert '\n' !in "Countries" && '\n' !in "Cities" && '\n' !in "Populations" && '\n' !in "Costs";
  }

  lemma TitlePlain()
    ensures '\n' !in "Tour Ticket Prices from Miami"
  {
  }

  lemma SamplePlain(costText: Money -> string)
    requires forall m :: Plain(costText(m))
    ensures TourPlain(SampleTours, costText, ColumnCount)
  {
    ColombiaPlain(costText);
    BrazilPlain(costText);
    ChileAndArgentinaPlain(costText);
    var countries := SampleTours.countries;
    assert countries == [Colombia, Brazil, Chile, Argentina];
  }

  /** Four countries holding ten cities, under a 29-character title. */
  lemma SampleShape()
    ensures BodyDefined(SampleTours, [13, 16, 15, 18])
    ensures |SampleTours.title| == 29
    ensures CitiesUpTo(SampleTours, ColumnCount) == 10
  {
    assert CitiesUpTo(SampleTours, 1) == 4;
    assert CitiesUpTo(SampleTours, 2) == 7;
    assert CitiesUpTo(SampleTours, 3) == 9;
  }

  /** main: the title, a border, the headings, a border, the four countries and
      a closing border. With cost texts that hold no bar or line break, that is
      1 + 3 + 1 + 10 cities + 3 separators = 18 lines. */
  method PrintSample(costText: Money -> string) returns (output: string)
    requires forall m :: Plain(costText(m))
    ensures output == Table(SampleTours, Headers, [13, 16, 15, 18], costText)
    ensures Count('\n', output) == 18
  {
    var columnWidth := ColumnWidths(BaseWidth);
    SampleWidths(columnWidth[..]);
    SampleHeadersFit();
    SampleShape();
    var console := new Console();
    console.PrintTable(SampleTours, Headers, columnWidth[..], costText);
    output := console.text;
    SamplePlain(costText);
    HeadingsPlain();
    TableLines(SampleTours, Headers, columnWidth[..], costText);
  }
}
