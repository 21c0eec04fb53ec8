# Sales-report core of desafio-vendas-cli, in Dafny

A sales report (`parser.relatorios.Relatorio`) takes a list of sales. Each sale is a product, a
quantity and a date string. The report:

- lower-cases and validates the requested format (`text`, `txt` or `json`);
- refuses an empty sales list with `Nenhuma venda encontrada.`;
- computes the revenue total and the best-selling product;
- renders either a three-line text report or a two-key JSON object.

`vendas/relatorios.py` repeats the two aggregations as free functions. The two `DateHandler`
classes turn date strings into calendar dates: they try twelve `strptime` patterns in a fixed
order and keep the first that succeeds. Both format a date as `YYYY-MM-DD`; the helpers class
also tests a date against an inclusive interval.

The model follows the Python code.

- **Money.** Python's `Decimal` becomes an exact (coefficient, places) pair.
  - `+` aligns to the larger number of places; `Decimal * int` keeps the places.
  - `str()` follows CPython's plain/scientific rule.
  - `:.2f` rounds half to even.
- **Dates.** `datetime.strptime` is modelled for the four directives the patterns use, exactly
  as CPython compiles them to a regular expression:
  - `%Y` is four digits;
  - `%y` is two digits (00-68 are the 2000s, 69-99 the 1900s);
  - `%m` is `1[0-2]|0[1-9]|[1-9]`;
  - `%d` is `3[01]|[12]\d|0[1-9]|[1-9]| [1-9]`.

  Matching tries the alternatives in order with backtracking, refuses unconverted trailing
  text, and requires a real date in years 1-9999.
- **Rendering.** `strftime` zero-pads every field, and `%Y` is four digits, so year 999 is
  written `0999`.
- **State.** The classes become a Dafny `class Report` whose methods loop the way the source
  does. Each method is proved against a specification function, and the properties are lemmas
  about those functions.

Files:

- `wrappers.dfy`: `Option` and `Result`.
- `decimals.dfy`: the `Decimal` arithmetic and its two string forms.
- `aggregation.dfy`: the total and the first-maximum scan, for any sale record.
- `parser_models.dfy` and `sales_models.dfy`: the two pairs of record types.
- `json.dfy`: a structural JSON value.
- `parser_reports.dfy`: `Relatorio`.
- `sales_reports.dfy`: `vendas/relatorios.py`.
- `dates.dfy`: calendar dates and their order.
- `strptime.dfy`: parsing.
- `strftime.dfy`: rendering and the parse-back proof.
- `date_formats.dfy`: the twelve patterns.
- `helpers_date_handler.dfy` and `core_date_handler.dfy`: the two `DateHandler` classes.

## Model

| member | source | states |
|---|---|---|
| ParserReports.ValidateFormat | parser/relatorios.py:22-23 | an accepted format is one of `text`, `txt`, `json` |
| ParserReports.ValidateFormatIgnoresCase | parser/relatorios.py:36-41 | accepted exactly when the format spells one of the three valid names in any case; the value is the lower-cased format; the error is the lower-cased format followed by the list of valid formats |
| ParserReports.UnknownFormatExample | parser/relatorios.py:36-41 | `"xml"` is refused with `Formato de relatório desconhecido: xml. Formatos válidos: text, txt, json` |
| ParserReports.Lower | parser/relatorios.py:22 | the result equals the input ignoring case and holds no capitals |
| ParserReports.MixedCaseExamples | parser/relatorios.py:22 | `"JSON"` is accepted as `json` and `"Txt"` as `txt` |
| ParserReports.Report.constructor | parser/relatorios.py:11-29 | for a valid format: stores the path and the dates; the format is lower-cased; sales and products are empty; the format defaults to `text` and both dates to `""` |
| ParserReports.Report.Create | parser/relatorios.py:11-41 | fails exactly when validation fails, with the validation message; otherwise gives a fresh valid report holding the fields, with the same defaults as the constructor |
| ParserReports.Report.CalculateTotal | parser/relatorios.py:117-122 | the running total equals `Total` of the sales: starts at 0.00, adds `preco × quantidade` per sale |
| ParserReports.BestSeller | parser/relatorios.py:124-137 | `None` exactly for no sales; otherwise the product of a sale whose quantity is the largest and strictly larger than every earlier one |
| ParserReports.Report.BestSellingProduct | parser/relatorios.py:124-137 | the two-variable scan with strict `>` returns `BestSeller` of the sales |
| ParserReports.Report.TextReport | parser/relatorios.py:86-103 | the string built by the three `+=` steps is `TextDocument` of the sales |
| ParserReports.TextDocumentLines | parser/relatorios.py:94-102 | the text report is exactly the three lines header, `Total de Vendas: …` and product line, each ended by a newline |
| ParserReports.TotalLineReadsBack | parser/relatorios.py:95 | the total line has no newline, and its number reads back as the total rounded to two places |
| ParserReports.ProductLineNoNewline | parser/relatorios.py:97-102 | the product line (or `Nenhum produto vendido.`) stays on one line when the name does |
| ParserReports.Report.JsonReport | parser/relatorios.py:64-84 | returns `JsonDocument` of the sales |
| ParserReports.JsonDocumentTotal | parser/relatorios.py:73-83 | the keys are exactly `total_vendas`, `produto_mais_vendido`; the total string reads back as the total in plain notation; the product is `null` exactly when there are no sales |
| ParserReports.JsonForReadsBack | parser/relatorios.py:73-83 | for any total and product: the two keys in order, the total as its `str`, the product member |
| ParserReports.ProductJsonReadsBack | parser/relatorios.py:76-79 | the product object has exactly the keys `nome`, `preco`; the name is the product's; the price string reads back as the price in plain notation |
| ParserReports.JsonForMembers | parser/relatorios.py:73-83 | looking up either key gives the value put under it |
| ParserReports.TotalsAgree | parser/relatorios.py:74 | when no price has more than two places, the text total (`:.2f`) and the JSON total (`str`) are the same string |
| ParserReports.Report.ReportForFormat | parser/relatorios.py:57-62 | on a valid report returns `RenderFor`: JSON exactly for `json`, text exactly for `text` and `txt` |
| ParserReports.Report.GenerateReport | parser/relatorios.py:43-55 | keeps the report valid and stores the given sales; fails with `Nenhuma venda encontrada.` exactly when there are none; otherwise returns the report for the format |
| ParserReports.SampleReport | parser/relatorios.py:117-137 | the seven fixture rows total 998.90 and their best seller is Camiseta |
| ParserReports.SampleCents | tests/fixtures/relatorios.py:72-80 | the fixture rows add up to 99890 hundredths |
| ParserReports.SampleTextReport | parser/relatorios.py:94-102 | the text report of the fixture rows is `Relatório de Vendas` / `Total de Vendas: 998.90` / `Produto Mais Vendido: Camiseta (49.90)` |
| ParserReports.SampleTotalText | tests/fixtures/relatorios.py:10 | 998.90 formats as `998.90` under both `:.2f` and `str` |
| ParserReports.SamplePriceText | parser/relatorios.py:100 | the price 49.9 formats as `49.90` |
| Aggregation.Total | vendas/relatorios.py:9-12 | the running total always has at least two places (it starts at `Decimal("0.00")`) |
| Aggregation.TotalIsExact | vendas/relatorios.py:10-11 | the value of the running total is the exact sum of `preco × quantidade` |
| Aggregation.TotalAppend | vendas/relatorios.py:10-11 | appending a sale adds exactly that sale's amount |
| Aggregation.TotalRemove | vendas/relatorios.py:10-11 | taking any sale out and adding it last leaves the total unchanged |
| Aggregation.TotalPermutation | vendas/relatorios.py:10-11 | two lists that are permutations of each other have the same total |
| Aggregation.TotalInCents | parser/relatorios.py:119-121 | with prices of at most two places the total is the sum of hundredths at exactly two places |
| Aggregation.FirstMaxIndex | vendas/relatorios.py:20-26 | the strict-`>` scan picks an index whose quantity is not below any other and strictly above every earlier one |
| Aggregation.FirstMaximumUnique | vendas/relatorios.py:24 | only one index has that property, so ties go to the earliest sale |
| SalesReports.CalculateTotal | vendas/relatorios.py:7-12 | the loop returns `Total` of the sales |
| SalesReports.BestSellingProduct | vendas/relatorios.py:15-28 | `None` exactly for no sales; otherwise the product of the first sale with the largest individual quantity |
| SalesReports.NoSummingPerProduct | vendas/relatorios.py:23-26 | for `[A:2, B:3, A:2]` the result is B although A sold more units in all |
| Decimals.Add | parser/relatorios.py:121 | exact addition: the value of the sum is the sum of the values, at the larger number of places |
| Decimals.MulInt | parser/relatorios.py:121 | `preco * Decimal(quantidade)` has value `preco × quantidade` at the price's places |
| Decimals.AddSwap | vendas/relatorios.py:10-11 | adding two amounts in either order gives the same total |
| Decimals.RoundHalfEvenNearest | parser/relatorios.py:95 | half-even division is within half a unit of the exact quotient, is even on a tie, and keeps the sign |
| Decimals.RoundedCoefficient | parser/relatorios.py:95 | quantizing to two places keeps the value when there are at most two places; otherwise it is within half a unit, even on a tie, and keeps the sign |
| Decimals.ToString | parser/relatorios.py:74 | `str()` text is non-empty and starts with `-` exactly for a negative value |
| Decimals.FormatFixed | parser/relatorios.py:95 | `:.2f` text starts with `-` exactly for a negative value and ends with `.` and two digits |
| Decimals.FormatFixedIsNumeric | parser/relatorios.py:95 | `:.2f` text is made only of digits, `-` and `.` |
| Decimals.FormatFixedReadsBack | parser/relatorios.py:95 | `:.2f` text reads back as the rounded value |
| Decimals.ToStringRoundTrip | parser/relatorios.py:74 | `str()` of a decimal in plain notation reads back as the same decimal, places included |
| Decimals.NatToDigitsRoundTrip | parser/relatorios.py:74-95 | the decimal digits of the whole part of `str()` and of `:.2f` read back as that number |
| Decimals.FixedDigitsRoundTrip | helpers/date_handler.py:49 | a zero-padded field of a number that fits reads back as the number |
| Json.Get | parser/relatorios.py:73-83 | a key is absent exactly when no member has it |
| Json.Lookup | parser/relatorios.py:73-83 | the value found belongs to a member with that key; nothing is found exactly when no member has it |
| Dates.DaysInMonth | helpers/date_handler.py:39 | a month has 28 to 31 days |
| Dates.LessEq | helpers/date_handler.py:60 | on valid dates, `<=` is the order of day numbers counted from 1 January of year 1 |
| Dates.FieldOrderIsDayOrder | helpers/date_handler.py:60 | comparing (year, month, day) field by field is comparing day numbers |
| Dates.LessEqTotalOrder | helpers/date_handler.py:60 | date comparison is reflexive, total, antisymmetric and transitive |
| DateParsing.Compile | helpers/date_handler.py:39 | a compiled pattern has at most one item per character of the pattern |
| DateParsing.MatchFrom | helpers/date_handler.py:39 | a match ends inside the string |
| DateParsing.ParseItems | helpers/date_handler.py:39 | every date `strptime` returns is a real calendar date |
| DateParsing.Strptime | helpers/date_handler.py:39 | every date returned is a real calendar date in years 1-9999 |
| DateParsing.EmptyNeverParses | core/date_handler.py:34-36 | a pattern that starts with a directive never matches the empty string |
| DateRendering.FieldText | helpers/date_handler.py:49 | a field is written as four (`%Y`) or two digits that read back as the year, the year modulo 100, the month or the day |
| DateRendering.Render | helpers/date_handler.py:49 | the rendering has one character per literal and the field's width per directive |
| DateRendering.MatchesRendered | helpers/date_handler.py:49 | matching a pattern against its own rendering consumes it all and captures each field's text |
| DateRendering.AssignRendered | helpers/date_handler.py:49 | the captured groups set exactly the named fields to the date's values, the rest to 1900-01-01 |
| DateRendering.RenderParsesBack | helpers/date_handler.py:49 | a pattern naming year, month and day reads its own rendering back as the same date (every date under `%Y`, the years 1969-2068 under `%y`) |
| DateFormats.CompileFormats | helpers/date_handler.py:22-35 | each of the twelve patterns compiles to its layout of fields and separators |
| DateFormats.FirstMatch | helpers/date_handler.py:37-39 | the first pattern's date, when there is one, is valid |
| DateFormats.FirstMatchMeaning | helpers/date_handler.py:37-39 | no date exactly when every pattern fails; otherwise the date of the earliest accepting pattern |
| DateFormats.FirstAcceptingDecides | helpers/date_handler.py:37-39 | the earliest accepting pattern decides the result, and later patterns are never consulted |
| DateFormats.EmptyMatchesNothing | core/date_handler.py:19-36 | the empty string matches none of the twelve patterns |
| DateFormats.IsoTextShape | helpers/date_handler.py:47-49 | for every valid date the text is ten characters: digits, `-` at 4 and 7, each field reading back |
| DateFormats.IsoRoundTrip | helpers/date_handler.py:23-49 | the `YYYY-MM-DD` text of every valid date is parsed back to the same date by the first pattern |
| DateFormats.EarlyYearPadded | helpers/date_handler.py:47-49 | 0999-01-01 is written `0999-01-01` and read back as the same date |
| DateFormats.YearFirstReading | helpers/date_handler.py:24 | `10-01-25` is read by `%y-%m-%d` as 2010-01-25 |
| DateFormats.DayFirstReading | helpers/date_handler.py:28 | on its own, `%d-%m-%y` reads `10-01-25` as 2025-01-10 |
| DateFormats.FourDigitYearRejects | helpers/date_handler.py:23 | `%Y-%m-%d` refuses `10-01-25` |
| DateFormats.AmbiguousDateTakesEarlierPattern | helpers/date_handler.py:37-39 | `str_to_date("10-01-25")` gives 2010-01-25, the earlier pattern's reading |
| HelpersDateHandler.StrToDate | helpers/date_handler.py:14-44 | the empty string gives `None`; otherwise the earliest accepting pattern's date, which is valid; fails with `Formato de data desconhecido: <s>` exactly when the string is non-empty and no pattern accepts it |
| HelpersDateHandler.DateToStr | helpers/date_handler.py:46-49 | for every valid date: ten characters with `-` at 4 and 7, read back by `str_to_date` as the same date |
| HelpersDateHandler.IsWithinInterval | helpers/date_handler.py:51-60 | on valid dates, true exactly when the date's day number lies in the inclusive interval of day numbers; true only for an ordered interval |
| HelpersDateHandler.IntervalEnds | helpers/date_handler.py:60 | both ends of an ordered interval belong to it; a reversed interval holds no date |
| CoreDateHandler.StrToDate | core/date_handler.py:14-41 | no empty shortcut: the earliest accepting pattern's date, which is valid; fails with the message exactly when no pattern accepts, so `""` fails |
| CoreDateHandler.DateToStr | core/date_handler.py:43-46 | for every valid date: ten characters with `-` at 4 and 7, read back as the same date |

## Left out

- CSV extraction (parser/relatorios.py:105-115) is file I/O. `GenerateReport` takes the
  extracted sales as a parameter, and the missing-file error is not modelled.
- `json.dumps` text, with its indentation and `\uXXXX` escaping, is left out. The JSON report is
  the structural value handed to it.
- Decimal context precision (28 significant digits) is left out. The model adds and multiplies
  exactly. This agrees with Python only when the coefficient of every product and every partial
  total, at the model's number of places, fits in 28 digits. Otherwise Python rounds: the value
  can change, and so can the number of places `str` prints. Two cases show this:
  - With the amounts 10^28, then 1, then -10^28, Python rounds the second partial total to
    10^28 and ends at 0, while the model ends at exactly 1.
  - `Decimal("0.00") + Decimal(10**27)` keeps its value. But the coefficient at two places needs
    30 digits, so Python drops the places and `str` prints no `.00`, while the model prints
    `….00`.
- Decimals.Decimal: a (coefficient, places) pair cannot hold a positive exponent
  (`str(Decimal("1E+1"))` is `1E+1`) or a negative zero (`Decimal("-0.00")`), so prices written
  that way are not modelled.
- DateParsing.Strptime: `\d` matches ASCII digits only; Python's regex also accepts other Unicode
  decimal digits.
- ParserReports.Lower: lower-cases ASCII and Latin-1 capitals only. Other characters can change
  only the text of the error message, never whether a format is accepted.
- Decimals.ToStringRoundTrip: the read-back is proved for plain notation only. Scientific notation,
  used for very small exponents, is rendered but not read back.
- Python builds whose platform `strftime` leaves years below 1000 unpadded (older glibc-based
  CPython) are not modelled; the model pads `%Y` to four digits.
- The timestamp helper `obter_data_e_hora_para_salvar_relatorio` (helpers/date_handler.py:62-67)
  reads the clock.
- Logging, the command line and packaging are left out. They are side effects and wiring.
- Methods that only the tests call are not modelled, because they are absent from
  parser/relatorios.py. These are the date filter, the summed best seller and the `R$` templates.
- The expected text and JSON in tests/fixtures/relatorios.py:10,15 differ from the template at
  parser/relatorios.py:94-102. The model follows the code.
- The `vendas` functions receive their list as a Dafny sequence, which is a value, so leaving the
  input unmodified holds by construction.
- The `Produto`/`Venda` `__repr__` methods are boilerplate and are left out.
