# Tour table overview, modelled in Dafny

The program prints a fixed list of tour destinations as an ASCII table on
standard output. Each destination is a country with its cities, and each city
has a population and a ticket cost. The table has a centred title, `+---+`
border lines, a row of centred headings, and one row per city. Its prices use
`Money`, a small fixed-point value type: a whole amount plus a cent part.

The model has six modules:

- `Currency` (money.dfy) models `Money`.
  - Its constructor is `Create`. It returns a `Result`: a negative part gives
    `Failure(NegativeValue)`, which stands for the thrown
    `NegativeValueException`.
  - `+`, `-`, `==` and `!=` are modelled as written.
  - `getDigit` is a method with the source's division loop. It is proved
    against a digit-count function.
- `Digits` (digits.dfy) holds the digit count and the decimal text of an
  integer. A population is printed as that text.
- `Text` (text.dfy) holds the one piece of stream formatting the table uses.
  `setw(n)` followed by one item appends `Padded(n, item, left, fill)`: the
  item, padded with the fill character up to `n` characters. The padding goes
  on the right when `std::ios::left` is set and on the left otherwise. The
  module also has `Count`, the number of times a character occurs in a text.
- `Layout` (layout.dfy) is the layout as pure functions of the inputs:
  - the width and padding arithmetic;
  - the border, header, title and body text;
  - lemmas about that text: centring, column alignment, line and bar counts.
- `Output` (console.dfy) stands for `std::cout`. It is a class `Console`
  whose field `text` holds everything written so far. `printTitle`,
  `printHorizontalLine`, `printHeaders` and `printBody` are methods. Each
  appends to `text` with the source's loops and the `isnFirstRow` flag, and
  each is proved to append exactly the `Layout` function for its output.
- `Sample` (sample.dfy) holds main's data and widths, and main's sequence of
  calls, as a worked instance. The resulting table has 18 lines.

The cost column's text comes from `operator<<` for `Money`, which is not
modelled. Everywhere it is a parameter `costText: Money -> string`.

## Model

| member | source | states |
|---|---|---|
| Currency.Create | Simple_table_overview.cpp:29-44 | fails exactly when the whole amount or the cents are negative; otherwise the result is valid (cents in 0..99, amount within int64), keeps the total in cents, and leaves a cent part of at most 99 unchanged |
| Currency.CreateUnique | Simple_table_overview.cpp:29-44 | the constructed value is the only valid value with the given total in cents |
| Currency.CreateKeepsValid | Simple_table_overview.cpp:29-44 | rebuilding a valid value from its own parts gives it back, so normalisation is idempotent |
| Currency.Add | Simple_table_overview.cpp:64-66 | adding two valid values never fails, the sum is valid, and its total is the sum of the totals |
| Currency.AddCommutes | Simple_table_overview.cpp:64-66 | a + b equals b + a |
| Currency.Sub | Simple_table_overview.cpp:68-70 | fails exactly when a's whole amount or a's cents are smaller than b's; on success the result is valid and its total is the difference of the totals |
| Currency.SubHasNoBorrow | Simple_table_overview.cpp:68-70 | 2.00 - 1.50 fails although the true difference is positive, because no cent is borrowed |
| Currency.SubUndoesAdd | Simple_table_overview.cpp:64-70 | (a + b) - b gives back a exactly when the cent sum did not carry |
| Currency.Equal | Simple_table_overview.cpp:72-74 | true exactly when the two values are equal |
| Currency.NotEqual | Simple_table_overview.cpp:76-78 | as written, true only when both components differ; it implies not-equal |
| Currency.NotEqualIsNotNegation | Simple_table_overview.cpp:72-78 | values are neither == nor != exactly when they differ in one component only |
| Currency.NotEqualCounterexample | Simple_table_overview.cpp:76-78 | 1.00 and 2.00 are valid, not ==, and not != |
| Currency.Distinct | Simple_table_overview.cpp:76-78 | the corrected `!=`: true exactly when the values differ |
| Currency.EqualOrDistinct | Simple_table_overview.cpp:72-78 | exactly one of == and the corrected != holds |
| Currency.GetDigit | Simple_table_overview.cpp:46-62 | returns the number of divisions by 10 that bring m_money * mul + m_cent to zero, with mul 1 when the cents are zero and 10 otherwise |
| Currency.GetDigitIsDecimalLength | Simple_table_overview.cpp:46-62 | the count is 0 only for the zero value; otherwise it is the length of the decimal text of that number, and the d with 10^(d-1) <= number < 10^d |
| Currency.GetDigitQuirk | Simple_table_overview.cpp:48-54 | 5.25 counts 2 digits (those of 75) and 5.00 counts 1, while their totals in cents have 3 |
| Digits.NumDigitsBounds | Simple_table_overview.cpp:56-60 | the loop's count is zero only for 0, and otherwise brackets n between 10^(d-1) and 10^d |
| Digits.NumDigitsUnique | Simple_table_overview.cpp:56-60 | any d that brackets n that way is the loop's count |
| Digits.IntDecimal | Simple_table_overview.cpp:177-178 | a population prints as a nonempty text of digits, with a leading '-' exactly for negative numbers |
| Digits.DecimalRoundTrip | Simple_table_overview.cpp:177-178 | reading back the decimal text of n gives n |
| Digits.DecimalLength | Simple_table_overview.cpp:177-178 | the decimal text is as long as the digit count (one character for 0) |
| Digits.IntDecimalRoundTrip | Simple_table_overview.cpp:177-178 | reading back a population's text gives the population, or its magnitude after the '-' |
| Text.Padded | Simple_table_overview.cpp:150-155 | `setw(n) << item` is max(n, length) long, with the item at the start when left-justified and at the end otherwise, and the fill character everywhere else |
| Text.PaddedRun | Simple_table_overview.cpp:129-130 | a fill character padded with itself is a run of max(n, 1) of it |
| Text.PaddedAvoids | Simple_table_overview.cpp:174-183 | padding adds no character other than the fill |
| Layout.CalculateMargin | Simple_table_overview.cpp:122-124 | the column is the value widened by the margin on both sides |
| Layout.MarginCentres | Simple_table_overview.cpp:122-142 | a text as wide as the base value, centred in the widened column, gets exactly `margin` spaces on each side |
| Layout.LeftPadding | Simple_table_overview.cpp:136-138 | the left pad is half the free space, rounded down |
| Layout.RightPadding | Simple_table_overview.cpp:140-142 | left pad + text + right pad fill the column, and the right pad is longer by the odd space, if any |
| Layout.DashCell | Simple_table_overview.cpp:129-130 | one border cell is max(w, 1) dashes |
| Layout.HorizontalLineCells | Simple_table_overview.cpp:126-134 | a border line is '+', then per column a run of max(w, 1) dashes between '+' marks |
| Layout.HorizontalLineCounts | Simple_table_overview.cpp:126-134 | a border line holds one '+' more than there are columns, and one line break |
| Layout.HorizontalLineLength | Simple_table_overview.cpp:126-134 | with positive widths a border line is 2 + columns + the sum of the widths long, counting its line break |
| Layout.AlignedWithBorder | Simple_table_overview.cpp:126-158 | a row whose cells are exactly as wide as the columns is as long as the border, and its bars stand where the border has its '+' |
| Layout.HeaderCellSpaces | Simple_table_overview.cpp:147-155 | a header cell is the heading between runs of max(left pad, 1) and max(right pad, 1) spaces, and is exactly the column wide when the heading leaves two or more free spaces |
| Layout.HeaderCellAvoids | Simple_table_overview.cpp:150-155 | a header cell contains no character absent from its heading, apart from spaces |
| Layout.HeaderCentred | Simple_table_overview.cpp:144-158 | when every heading leaves two free spaces, each heading is centred in its column with the odd space on the right, and the header's bars line up with the border |
| Layout.HeaderRowCount | Simple_table_overview.cpp:144-158 | the header is one line |
| Layout.TitleLine | Simple_table_overview.cpp:198-201 | the title line is a run of spaces, the title and a line break; a title of at most 60 characters is centred over 62 columns with the odd space on the right, and a longer one gets exactly one space |
| Layout.TitleLineCount | Simple_table_overview.cpp:198-201 | the title is one line |
| Layout.RowCells | Simple_table_overview.cpp:166-183 | a city row's four cells are its texts, left-justified and space-padded to their column widths |
| Layout.CityRowText | Simple_table_overview.cpp:166-183 | a city row is the opening bar and first cell, then the other cells each after a bar, a closing bar and a line break |
| Layout.CityRowCounts | Simple_table_overview.cpp:174-183 | a city row has five bars and one line break |
| Layout.CityRowShape | Simple_table_overview.cpp:166-183 | column k of a city row holds the k-th text: the country name on the first row, a blank on later rows, then city, population and cost |
| Layout.CityRowAligned | Simple_table_overview.cpp:166-183 | when every text fits its column, a city row is as long as the border and its bars line up with the border's '+' |
| Layout.CityRows | Simple_table_overview.cpp:169-185 | row j of a country carries the country's name exactly when j is 0 |
| Layout.CountryRowsNext | Simple_table_overview.cpp:169-185 | the next row is the name cell already printed plus the rest of the row for the first city, and a blank cell plus the rest for later cities |
| Layout.CountryRowsLines | Simple_table_overview.cpp:169-185 | a country's first n cities print n lines |
| Layout.CountryTextLines | Simple_table_overview.cpp:164-186 | a country prints one line per city, and none when it has no city |
| Layout.SeparatorLine | Simple_table_overview.cpp:187-193 | the separator is 67 dashes and a line break |
| Layout.SeparatorLineCount | Simple_table_overview.cpp:187-193 | the separator is one line |
| Layout.BodyUpToLines | Simple_table_overview.cpp:160-196 | the first k countries print one line per city, plus a separator after each country but the last of the four |
| Layout.BodyUpToIgnoresRest | Simple_table_overview.cpp:162-167 | the body reads only the first colWidth.size() countries |
| Layout.BodyIgnoresRest | Simple_table_overview.cpp:162-167 | the whole body is unchanged when the countries past the fourth are dropped |
| Layout.TableLines | Simple_table_overview.cpp:251-256 | the table has the cities' lines plus 8: title, three borders, header and three separators |
| Output.Console.PrintTitle | Simple_table_overview.cpp:198-201 | appends the title line and nothing else |
| Output.Console.PrintHorizontalLine | Simple_table_overview.cpp:126-134 | its loop appends one dash cell and '+' per column, so the method appends exactly the border line |
| Output.Console.PrintHeaders | Simple_table_overview.cpp:144-158 | its loop appends one centred cell and bar per heading, so the method appends exactly the header row |
| Output.Console.PrintCountry | Simple_table_overview.cpp:164-186 | with the isnFirstRow flag, the name cell and the city loop append exactly the country's rows |
| Output.Console.PrintBody | Simple_table_overview.cpp:160-196 | appends the four countries, with the separator after every one but the last |
| Output.Console.PrintTable | Simple_table_overview.cpp:251-256 | main's six calls append title, border, header, border, body and border |
| Sample.ColumnWidths | Simple_table_overview.cpp:247-249 | each column width is its base width plus one on each side |
| Sample.SampleWidths | Simple_table_overview.cpp:238-249 | main's widths are 13, 16, 15 and 18 |
| Sample.SampleBorder | Simple_table_overview.cpp:126-134 | those widths add up to the title width, and the border and the separator are both 68 characters |
| Sample.SampleHeadersFit | Simple_table_overview.cpp:240-249 | every heading fits its column with two or more spaces to spare |
| Sample.SampleShape | Simple_table_overview.cpp:206-235 | main's listing has four countries, ten cities and a 29-character title |
| Sample.SamplePlain | Simple_table_overview.cpp:206-235 | no name in main's listing contains a bar or a line break |
| Sample.PrintSample | Simple_table_overview.cpp:204-256 | main prints the table for its listing, and the table has 18 lines when no cost text contains a bar or a line break |

## Left out

- `operator<<` for `Money` (Simple_table_overview.cpp:80-93) is not modelled. It depends on the user's locale, a `stringstream` and floating point. Its output is the parameter `costText`.
- `setConsoleWidth` (Simple_table_overview.cpp:117-120) is never called.
- The message of `NegativeValueException::what` is not modelled. A failure carries only its kind.
- A throw inside the `noexcept` operators ends the program. Here it is a `Failure` result.
- The stream's fill character, width and `std::ios::left` flag are not state in the model. Each `Padded` call uses the values they have at that point in main's call order. So the model cannot show a formatting setting leaking from one call into the next.
- Text is a sequence of characters, and each character counts as one column. The source measures `std::string` sizes in bytes, so the two differ for multi-byte UTF-8 names.
- Currency.Create: its arguments must fit `int64_t` and `int16_t`, and the carry into the whole amount must not overflow. Signed overflow is undefined behaviour.
- Currency.Add: the sum of the whole amounts, with the carry, must not overflow `int64_t`. The cent sum is at most 198, so the `int16_t` cast never truncates. The same holds for the cent difference in `Sub`.
- Currency.GetDigit: `m_money * mul + m_cent` must not overflow `int64_t`.
- Layout.CalculateMargin: the arithmetic must stay within `int32_t`.
- Layout.LeftPadding: the text must fit its column. The source subtracts in `size_t`, and a longer text wraps around. The same applies to Layout.RightPadding, Output.Console.PrintHeaders (every heading fits its column) and Output.Console.PrintTitle (the title is at most 62 characters).
- Output.Console.PrintBody: there must be four column widths and at least four countries. The source reads `tour.countries[i]` without a bounds check.
- A country with no city prints only its opening bar and padded name, with no line break. The model states this as written.
- Populations are unbounded integers. The source's `int64_t` range adds nothing to the printed text.

## Facts of the code the model keeps

- The constructor normalises the cents into 0..99 and carries cent / 100 into the whole amount (Simple_table_overview.cpp:37-40).
- A border cell is `setw(w)` applied to one `'-'` with fill `'-'`, so it is max(w, 1) dashes (Simple_table_overview.cpp:129-130).
- Populations are left-justified like the other columns, because `std::ios::left` is set for the whole body (Simple_table_overview.cpp:161).
- `getDigit` counts the digits of m_money * mul + m_cent, which is not the amount in cents (`Currency.GetDigitQuirk`).
- A text wider than its column is excluded by a precondition, because the source's `size_t` subtraction would wrap (see "## Left out").

## Findings

| source | as written | input that shows it | evidently intended | confidence | as-written member | corrected member |
|---|---|---|---|---|---|---|
| Simple_table_overview.cpp:76-78 | `!=` is true only when both the whole amount and the cents differ | Money(1, 0) and Money(2, 0): neither `==` nor `!=` holds | `!=` is the negation of `==` | not executed | Currency.NotEqual, Currency.NotEqualCounterexample | Currency.Distinct, Currency.EqualOrDistinct |
