# Sales-file pipeline: reader, parser and revenue fold

A Dafny model of the text pipeline of a small sales-analytics program. The pipeline has three
steps:

- `read_sales_data` turns the rows of a '|'-delimited sales file into lines. It drops the
  header, drops empty rows and joins each remaining row with '|'.
- `parse_transactions` turns each line into a record of eight text fields.
  - Each line is split on '|' and every field is stripped.
  - A line must have exactly eight fields. Otherwise the whole call raises.
  - The line is kept only if its comma-cleaned Quantity converts with `int()` and its
    comma-cleaned UnitPrice converts with `float()`.
  - The emitted record holds the *uncleaned* stripped text.
- `calculate_total_revenue` sums `int(Quantity) * float(UnitPrice)` over the records from
  left to right, then rounds to two decimals.

The modules, one per concept:

| module | file | models |
|---|---|---|
| `Wrappers` | wrappers.dfy | `Option`, used for calls that raise |
| `Seqs` | seqs.dfy | the "filter, transform, keep order" loop shape and its index characterisation |
| `Text` | text.dfy | Python's `str.strip()`, `replace`, `split` and `join` with a one-character argument |
| `Literals` | literals.dfy | the subset of `int(text)` and `float(text)` the model accepts |
| `Reader` | reader.dfy | `read_sales_data` from the reader's rows onward |
| `Parser` | parser.dfy | `parse_transactions` |
| `Revenue` | revenue.dfy | `calculate_total_revenue` |
| `Pipeline` | pipeline.dfy | how the three steps fit together |
| `Intended` | intended.dfy | the parser and revenue fold as the docstrings describe them |
| `Findings` | findings.dfy | worked examples that show the gap between the code and the docstrings |

A call that raises ValueError is modelled as `None`. Arithmetic is exact: prices are `real`
and quantities are `int`, both unbounded (see "Left out" for the limits Python has and the
model does not).

## Model

| member | source | states |
|---|---|---|
| Reader.RowKept | utils/file_handler.py:27 | The row filter: a row is kept iff it has at least one field, since `field.strip` is never called and a bound method is always true. Reader.ReadRowsSpec and Reader.BlankRowKept give it its meaning |
| Reader.JoinRow | utils/file_handler.py:28 | `'\|'.join(row)`. Reader.ReadRowsRoundTrip shows that splitting the line on '\|' gives a '\|'-free row back |
| Reader.ReadRows | utils/file_handler.py:24-28 | No rows, or only a header, gives no lines; otherwise there are strictly fewer lines than rows, because the header is always dropped |
| Reader.ReadSalesData | utils/file_handler.py:21-29 | The loop's list is exactly the reference reading `ReadRows` |
| Reader.ReadRowsSpec | utils/file_handler.py:24-28 | Line k is the '\|'-join of the k-th kept data row; kept positions ascend; a data row is kept iff it is non-empty; the header is never a source |
| Reader.ReadRowsMembership | utils/file_handler.py:26-28 | A text is a produced line iff some non-empty data row joins to it |
| Reader.ReadRowsAppend | utils/file_handler.py:26-28 | Appending data rows appends their lines and leaves the earlier lines and their order unchanged |
| Reader.BlankRowKept | utils/file_handler.py:27 | A row of blank fields is kept, because `field.strip` is never called; a zero-field row is dropped |
| Reader.ReadRowsRoundTrip | utils/file_handler.py:28 | Splitting a produced line on '\|' gives back its source row when no field of that row contains '\|' |
| Text.Strip | utils/file_handler.py:72 | `str.strip()` with no argument: whitespace of the `str.isspace` set peeled off both ends. Text.StripSlice characterises the result |
| Text.StripSlice | utils/file_handler.py:72 | `strip()` keeps one slice: everything outside it is whitespace, and a non-empty slice has non-whitespace ends |
| Text.StripIdempotent | utils/file_handler.py:75-76 | Stripping twice is stripping once |
| Text.StripKeepsInterior | utils/file_handler.py:75-76 | A character with non-whitespace neighbours survives `strip()` |
| Text.Split | utils/file_handler.py:72 | `line.split('\|')` gives at least one piece, and no piece contains the separator. Text.SplitJoin, Text.JoinSplit and Text.SplitCount relate it to join and to the number of separators |
| Text.Join | utils/file_handler.py:28 | `sep.join(parts)`. Text.JoinSplit and Text.SplitJoin make it the inverse of split |
| Text.SplitJoin | utils/file_handler.py:72 | Splitting the join of one or more '\|'-free pieces gives the pieces back |
| Text.JoinSplit | utils/file_handler.py:72 | Joining the pieces of a split gives the text back |
| Text.SplitCount | utils/file_handler.py:72 | A split has exactly one more piece than the text has separators |
| Text.Replace | utils/file_handler.py:74-76 | `replace(",", " ")` keeps the length and leaves no comma behind |
| Text.ReplaceRoundTrip | utils/file_handler.py:74-76 | On a text without spaces, replacing every space back by a comma restores the original, so `replace(",", " ")` touches nothing but the commas. Parser.CommaBetweenDigitsFailsCoercion and Parser.CleanFieldTrimmed give its effect on the gate |
| Text.Remove | utils/file_handler.py:65 | Removing every comma, as the docstring asks, leaves no comma and keeps every other character with its multiplicity, so a comma-free text is unchanged. Intended.RemoveConcat gives the order: removal distributes over concatenation |
| Literals.ParseInt | utils/file_handler.py:79 | `int(text)` succeeds iff the stripped text is an optional sign followed by ASCII digits |
| Literals.ParseFloat | utils/file_handler.py:80 | `float(text)` succeeds iff the stripped text is an optional sign followed by digits, with at most one '.' and at least one digit |
| Literals.FractionShift | utils/data_processor.py:18 | The whole part plus the fraction after the point is the value of all the digits read together, divided by ten once per fraction digit |
| Literals.TenthsIsQuotient | utils/data_processor.py:18 | Dividing by ten `n` times is dividing by `10^n` |
| Literals.ParseFloatDecimal | utils/data_processor.py:18 | For digit strings `a` and `b`, not both empty, `float(a + "." + b)` is the value of the digits of `a + b` divided by ten once per digit of `b` |
| Literals.ParseFloatNegated | utils/file_handler.py:80 | A '-' in front of an unsigned literal without surrounding whitespace negates the value `float()` returns |
| Literals.ParseFloatExample | utils/data_processor.py:18 | `float("12.50")` is 12.5 |
| Literals.ParseFloatNegativeExample | utils/file_handler.py:80 | `float("-0.25")` is -0.25 |
| Literals.ParseIntShowInt | utils/file_handler.py:79 | `int(str(n)) == n` for every integer, with any whitespace around it |
| Literals.IntLiteralIsFloatLiteral | utils/file_handler.py:79-80 | Whenever `int(text)` succeeds, `float(text)` succeeds with the same value |
| Literals.CommaNeverCoerces | utils/data_processor.py:17-18 | Neither `int()` nor `float()` accepts a text that contains a comma anywhere |
| Parser.StrippedFields | utils/file_handler.py:72 | `[f.strip() for f in line.split('\|')]` has one field more than the line has '\|', and every field is '\|'-free and already trimmed. Parser.StrippedFieldsOfJoin is the round trip: such fields, joined, come back unchanged |
| Parser.CleanField | utils/file_handler.py:74-76 | `f.replace(",", " ").strip()`. Parser.CommaBetweenDigitsFailsCoercion shows what it does to a thousands separator, Intended.LineKeptTogether what it does to comma-free text |
| Parser.PassesGate | utils/file_handler.py:78-82 | The try block succeeds iff `int()` accepts the cleaned Quantity and `float()` the cleaned UnitPrice. Pipeline.EmittedRecordGated and Parser.ParsedAreGatedSubsequence show that exactly the lines passing it are emitted |
| Parser.Record | utils/file_handler.py:84-97 | The dictionary's values, in key order, are the eight stripped fields, with Quantity and UnitPrice left as uncleaned text |
| Parser.ParseLine | utils/file_handler.py:72-97 | A line raises iff it does not split into eight fields, which is iff it does not hold exactly seven '\|'; an emitted record's values, in key order, are the line's stripped fields |
| Parser.ParseTransactions | utils/file_handler.py:71-98 | The call raises iff some line, anywhere in the input, fails to unpack into eight fields; otherwise the output is no longer than the input |
| Parser.ParseTransactionsFilters | utils/file_handler.py:71-98 | When no line raises, the output is exactly the emitted lines' records, in input order |
| Parser.ParsedAreGatedSubsequence | utils/file_handler.py:71-97 | Record k comes from the k-th accepted line and equals its stripped fields; source positions ascend; a line is a source iff it has eight fields and its cleaned Quantity and UnitPrice convert |
| Parser.ParseTransactionsEmitted | utils/file_handler.py:84-97 | An emitted first line puts its record in front of the rest's output |
| Parser.ParseTransactionsSkipped | utils/file_handler.py:81-82 | A skipped first line leaves the rest's output unchanged |
| Parser.CommaBetweenDigitsFailsCoercion | utils/file_handler.py:75-82 | A comma between two digits, as in "45,000", becomes an inner space that neither `int()` nor `float()` accepts |
| Parser.ThousandsSeparatorSkipsLine | utils/file_handler.py:75-82 | An eight-field line whose Quantity or UnitPrice has a thousands separator is skipped |
| Parser.StrippedFieldsOfJoin | utils/file_handler.py:72 | Joining trimmed '\|'-free fields and parsing the line again gives back the same fields |
| Parser.NoBusinessRulesInParser | utils/file_handler.py:78-97 | A line with a non-"T" id, an empty date, Quantity "-3" and UnitPrice "0" is still emitted, and its ProductName keeps its comma |
| Revenue.Amount | utils/data_processor.py:17-19 | One record's `int(Quantity) * float(UnitPrice)`, `None` where either conversion raises. Revenue.AmountOfLiterals and Revenue.AmountIsProduct give its meaning |
| Revenue.RevenueSum | utils/data_processor.py:11-19 | The exact running total of the loop, accumulated left to right, `None` as soon as a record raises. Revenue.RevenueSumDefined, Revenue.RevenueSumAppend and Revenue.RevenueSumConcat characterise it |
| Revenue.TimesIsProduct | utils/data_processor.py:19 | Repeated addition equals the product `qty * price` |
| Revenue.AmountIsProduct | utils/data_processor.py:17-19 | A record's amount is its integer Quantity times its decimal UnitPrice |
| Revenue.RevenueSumAppend | utils/data_processor.py:16-19 | Appending one record adds exactly that record's `qty * price` to the running total, or makes the call raise if that record's conversion raises |
| Revenue.RevenueSumConcat | utils/data_processor.py:16-19 | The total of `a + b` is the total of `a` plus the total of `b`; it is defined iff both are |
| Revenue.RevenueSumDefined | utils/data_processor.py:11-19 | The total is defined iff every record's Quantity and UnitPrice convert; it is 0 for no records |
| Revenue.RoundHalfEven | utils/data_processor.py:22 | Python's `round` to an integer on an exact value: an integer within 0.5 of its argument. Revenue.Round2TieEven pins down the ties |
| Revenue.Round2 | utils/data_processor.py:22 | `round(x, 2)` is a whole number of hundredths within 0.005 of `x` |
| Revenue.Round2Cents | utils/data_processor.py:22 | A whole number of hundredths is unchanged by rounding |
| Revenue.Round2TieEven | utils/data_processor.py:22 | Every value exactly halfway between `n` and `n + 1` hundredths rounds to whichever of the two is even |
| Revenue.Round2Ties | utils/data_processor.py:22 | Two instances of the tie rule: 0.125 rounds to 0.12 and 0.375 to 0.38 |
| Revenue.CalculateTotalRevenue | utils/data_processor.py:10-22 | The call succeeds iff the exact sum is defined, and the result is then within 0.005 of that sum |
| Revenue.CalculateTotalRevenueCents | utils/data_processor.py:22 | A successful result is a whole number of hundredths |
| Revenue.CalculateTotalRevenueEmpty | utils/data_processor.py:11-22 | No records give a revenue of 0 |
| Revenue.CalculateTotalRevenueLoop | utils/data_processor.py:11-22 | The loop, returning as soon as a record raises, computes the same result as the fold |
| Revenue.RevenueStep | utils/data_processor.py:16-19 | One pass of the loop body adds a defined record amount to the running total of the records so far, giving the running total of one record more |
| Revenue.AmountOfLiterals | utils/data_processor.py:17-19 | A record's `int(Quantity) * float(UnitPrice)` is defined iff the stripped Quantity is an integer literal and the stripped UnitPrice a decimal literal, and it is then the product of the values those literals denote |
| Revenue.NonIntegerQuantityFails | utils/data_processor.py:17 | A record whose Quantity is not an integer literal makes the whole call raise; the record is not skipped |
| Pipeline.ReadThenParseSucceeds | utils/file_handler.py:72 | With '\|'-free fields, parsing the reader's lines succeeds iff every non-empty data row has exactly eight fields |
| Pipeline.GatedAmount | utils/data_processor.py:17-18 | For a record that passed the parser's gate, the revenue fold's conversion succeeds iff neither raw numeric field contains a comma |
| Pipeline.GatedAmountValue | utils/data_processor.py:17-19 | When it is defined, the revenue fold multiplies the very numbers the gate computed |
| Pipeline.EmittedRecordGated | utils/file_handler.py:78-97 | Every emitted record passed the gate on its own stripped fields |
| Pipeline.ParsedRevenueDefined | utils/data_processor.py:16-19 | The revenue of a successful parse is defined iff no emitted record's raw Quantity or UnitPrice contains a comma |
| Pipeline.LeadingCommaCrashesRevenue | utils/file_handler.py:75-79 | A Quantity of ",5" passes the parser's gate and the record keeps ",5", so the revenue call over that record raises |
| Intended.CleanNumber | utils/file_handler.py:65 | The cleaning the docstring asks for: commas removed, then stripped. Intended.ThousandsSeparatorAccepted gives its effect on a thousands separator |
| Intended.ParseSale | utils/file_handler.py:62-68 | The corrected line parser converts a line only if it splits into eight fields. Intended.LineKeptTogether and Intended.LineAgreement relate it to the as-written parser |
| Intended.ParseSales | utils/file_handler.py:68 | The corrected output is never longer than the input. Intended.WrongArityIsSkipped shows that a wrong-width line is skipped instead of raising |
| Intended.ThousandsSeparatorAccepted | utils/file_handler.py:65 | With commas removed, digits with a thousands separator convert to the value of the plain digits under `int()` and `float()` |
| Intended.WrongArityIsSkipped | utils/file_handler.py:68 | A wrong-width line contributes nothing to the corrected output, which equals the output with that line deleted |
| Intended.LineKeptTogether | utils/file_handler.py:74-82 | On a line without commas in its numeric fields, the as-written parser emits the line iff the corrected parser converts it |
| Intended.LineAgreement | utils/file_handler.py:74-97 | On such a line, a kept line gives the same texts, the cleaned ProductName and the same amount under both parsers |
| Intended.SaleAmountIsProduct | utils/data_processor.py:19 | A typed record's amount is its quantity times its price |
| Intended.SalesSum | utils/data_processor.py:6 | The exact sum of quantity times price over typed records. Intended.SalesSumAppend and Intended.SaleAmountIsProduct characterise it |
| Intended.SalesSumAppend | utils/data_processor.py:16-19 | Appending a typed record adds its amount, `quantity` additions of its UnitPrice, to the corrected sum |
| Intended.TotalRevenue | utils/data_processor.py:22 | The corrected revenue is always a number, within 0.005 of the exact sum, and 0 for no records |
| Intended.RevenueSumAgreement | utils/data_processor.py:16-19 | With no wrong-width line and no comma in a numeric field, the as-written parse succeeds and its exact total equals the corrected sum |
| Intended.RevenueAgreement | utils/data_processor.py:10-22 | Under the same conditions the as-written revenue equals the corrected revenue |
| Findings.AsWrittenSampleParse | utils/file_handler.py:75-82 | Of the lines T001 (UnitPrice "45,000") and T002, only T002 is emitted, still as text |
| Findings.AsWrittenSampleRevenue | utils/data_processor.py:10-22 | The as-written revenue of that sample is 19000.00 |
| Findings.IntendedSampleParse | utils/file_handler.py:54-55 | The corrected parser keeps both sample lines, with int Quantity and float UnitPrice |
| Findings.IntendedSampleRevenue | utils/data_processor.py:6 | The corrected revenue of the sample is 2 x 45000 + 38 x 500 = 109000.00 |
| Findings.LeadingCommaIntended | utils/file_handler.py:92 | Where the as-written record keeps ",5", the corrected parser reads Quantity 5, and the revenue is 50.00 |

## Left out

- `main.py`: orchestration with `print` and `input`. It also calls `validate_and_filter`, which is not defined in any of the modelled files, so it is not modelled.
- File opening, encodings, `chardet` and `csv.reader`'s own tokenisation and quoting rules (utils/file_handler.py:20-23). The reader is modelled from its sequence of rows onward. A quoted field may contain '\|', so the round-trip lemmas require '\|'-free fields.
- The exception handlers at utils/file_handler.py:32-37 and their messages. They only return the partial list after printing.
- The debug `print` and the unused `length` at utils/data_processor.py:13-14.
- IEEE double arithmetic. Sums are exact `real`s, and `round(x, 2)` is round-half-even of `x * 100` taken exactly. The binary representation that makes Python's `round` differ on some decimal inputs is not modelled.
- Literals.ParseInt: accepts only an optional sign and ASCII digits, after Python-whitespace stripping. Underscores between digits and non-ASCII digits, which Python also accepts, are treated as failures.
- Literals.ParseInt: has no length limit. Since Python 3.11, `int()` raises ValueError on a decimal text of more than 4300 digits, so the gate at utils/file_handler.py:79-82 skips such a line, while the model emits it.
- Literals.ParseFloat: accepts only an optional sign and digits with at most one '.'. Exponents, "inf", "nan", underscores and non-ASCII digits are treated as failures.
- Revenue.CalculateTotalRevenue: takes the parser's eight-field records. A dictionary without a "Quantity" key, where `t.get` gives `None` and `int(None)` raises TypeError, cannot be expressed. An empty input gives the integer `0` in Python and `0.0` here.
- Revenue.CalculateTotalRevenue: `qty * price` at utils/data_processor.py:19 converts `qty` to a double, which raises OverflowError when `|qty|` is at least 2^1024. The model's `Amount` is defined there, and doubles are not modelled at all (see the IEEE line above).
- Revenue.CalculateTotalRevenue: no contract says the input is not modified (utils/data_processor.py:16-19). Every operation here takes immutable values, so this holds by construction.
- `p_name_clean` (utils/file_handler.py:74) is computed but never used by the source, so the as-written model has no counterpart. The corrected parser in `Intended` uses it for ProductName.

## Findings

| source | as written | input that shows it | evidently intended | confidence | as-written member | corrected member |
|---|---|---|---|---|---|---|
| utils/file_handler.py:75-76 | `replace(",", " ")` turns "45,000" into "45 000", which `float()` rejects, so the line is silently dropped | lines `T001\|2024-12-01\|P101\|Laptop\|2\|45,000\|C001\|North` and `T002\|2024-12-01\|P102\|Mouse\|38\|500\|C002\|South`: the revenue is 19000.00 | remove the commas ("Remove commas from numeric fields", line 65): revenue 109000.00 | high; not executed | Findings.AsWrittenSampleRevenue | Findings.IntendedSampleRevenue |
| utils/file_handler.py:72 | the eight-name unpacking is outside the `try`, so a line without exactly eight fields raises ValueError and ends the whole call | any input with a line such as `a\|b` among well-formed ones | skip that line ("Skip rows with incorrect number of fields", line 68) | high; not executed | Parser.ParseTransactions | Intended.WrongArityIsSkipped |
| utils/file_handler.py:92-93 | the record keeps the raw Quantity and UnitPrice text, not the converted `int`/`float` (lines 54-55), so the revenue fold converts the raw text again: ",5" passes the gate as "5" but `int(",5")` raises in `calculate_total_revenue` | a line with Quantity `,5` | store `qty` and `unit_price` | high; not executed | Pipeline.LeadingCommaCrashesRevenue | Findings.LeadingCommaIntended |
