# Stock report helpers, modelled in Dafny

This project models the computational helpers of a stock report service. The
service fetches the daily closing prices and volumes of a Taiwanese ticker,
repairs gaps in them and derives moving averages, RSI and crossover signals. It
returns one record per trading day and can export the records as CSV. A
keep-alive loop pings the hosting server outside configured quiet hours.

The model covers three source files.

- `helpers/stock-helper.js`:
  - `rollingAverageInterpolation` fills a `null` with the mean of the non-null
    entries within three places on either side. It scans a copy of the series, so
    a value it has already filled takes part in later windows.
  - `fillWithNaN` left-pads an indicator series to the length of the price series.
  - `processStockData` makes one forward pass that carries the previous strength
    state. It classifies `isSma10Strong` (`'unknown'`, `false` or `true`) and
    `crossType` (`null`, `'golden-cross'` or `'death-cross'`). It also rewrites
    the caller's volume array in place, and builds the twelve-field record of
    each day.
  - `formatNumber` applies `Math.round`, then `toString`, then a comma before
    each group of three digits counted from the right, except the first group.
- `helpers/csv-helper.js`: the two `convertToCSV` functions write the records
  transposed: one line per property name of the first record, holding the name
  and then that property of every record. The second function reverses the
  records on every line. Both results are prefixed with a byte order mark.
- `helpers/req-helpers.js`:
  - the `parseInt(…) || default` settings for the break and continue hours;
  - the on/off toggle;
  - `isQuietHours`;
  - the rule that a check sends a request only outside quiet hours.

Each stateful loop of the source is a Dafny `method`:
- the interpolation loop over its copy (`Interpolation.RollingAverageInterpolation`);
- the padding buffer (`Padding.FillWithNaN`);
- the record loop that rewrites the `volumes` array (`StockRecords.BuildRecords`).

Each method is proved equal to a pure specification function, and the lemmas are
about those functions. The modules follow the source's parts:
- `Interpolation`, `Padding`, `Crossover`, `VolumeFormat` (with `Decimal`) and
  `StockRecords` model `stock-helper.js`;
- `CsvExport` models `csv-helper.js`;
- `KeepAlive` models `req-helpers.js`.

`CsvReader` is a reference reader for the format of section 2 of RFC 4180. It
uses a line feed as the line break. `CsvRoundTrip` proves that reading the export
back gives the transposed table of the records' texts.

JavaScript values are the datatype `JsValues.JsValue`. NaN is its own
constructor, because stock-helper.js pads with NaN. Indicator series are
`seq<Option<real>>`, with `None` where the source has NaN. Quote series are
`seq<Option<real>>` or `seq<JsValue>`, with `None` or `Null` where the source
has `null`.

Some consequences of the code are worth stating on their own:
- **Filled values feed later windows.** The windows are sliced from the array
  being filled, so a value filled in at one gap takes part in the mean of the next
  gap (`Interpolation.ReplacementsFeedLaterWindows`).
- **Five-day example.** For `[10, null, 12, 13, 14]`, the window reaches three
  places on each side. It takes in 10, 12, 13 and 14 and gives 12.25 at index 1
  (`Interpolation.FiveDayScenario`).
- **Residual gaps.** A `null` whose whole window is null stays null
  (`Interpolation.AllNullWindowStaysNull`). As an interpolated volume it shows as
  `"0"`, because `null / 1000` is 0 (`StockRecords.VolumeText`).
- **Zero volumes.** The raw-volume test is truthiness, so a volume of zero becomes
  `null` just like a missing one (`StockRecords.FormattedVolume`).
- **CSV orientation.** The export writes one line per property name, not a header
  row of names (`CsvExport.ConvertToCSV`).

Each row below maps a modelled function of the source to the Dafny members that
model it:

| source function | Dafny |
|---|---|
| `rollingAverageInterpolation` (stock-helper.js) | `Interpolation.RollingAverageInterpolation`, specified by `Interpolation.Interpolated`; one loop iteration is `Interpolation.Step`, its window `Interpolation.Window` and its mean `Interpolation.WindowMean` |
| `fillWithNaN` (stock-helper.js) | `Padding.FillWithNaN`, specified by `Padding.Padded` |
| `processStockData` (stock-helper.js) | `StockRecords.ProcessStockData`, specified by `StockRecords.ProcessedRecords`; the `map` is `StockRecords.BuildRecords` and `StockRecords.Records`, one callback is `StockRecords.RecordAt`, and the strength and cross tests are `Crossover.StrengthOf` and `Crossover.CrossOf` |
| `formatNumber` (stock-helper.js) | `VolumeFormat.FormatNumber`, with `VolumeFormat.Round`, `Decimal.Digits` and the comma regex `VolumeFormat.GroupDigits` |
| `convertToCSV` of `writeRowsCSVFile` (csv-helper.js) | `CsvExport.ConvertToCSV`; the file content is `CsvExport.RowsFileContent` |
| `convertToCSV` of `writeInverseRowsCSVFile` (csv-helper.js) | `CsvExport.ConvertToCSVInverse`; the file content is `CsvExport.InverseRowsFileContent` |
| the `parseInt` settings with their defaults (req-helpers.js) | `KeepAlive.ParseInt`, `KeepAlive.BreakHour`, `KeepAlive.ContinueHour` |
| `isQuietHours` (req-helpers.js) | `KeepAlive.IsQuietHours` |
| the `setInterval` callback (req-helpers.js) | `KeepAlive.CheckAt`, `KeepAlive.Checks` |

## Model

| member | source | states |
|---|---|---|
| Interpolation.Window | helpers/stock-helper.js:61-67 | the window around `i` is non-empty, at most `2w+1` long, and contains the entry at `i` itself |
| Interpolation.WindowMean | helpers/stock-helper.js:64-73 | the replacement is null exactly when every entry of the window is null; otherwise it is the mean of the window's non-null values |
| Interpolation.StepsUpTo | helpers/stock-helper.js:58-75 | after the iterations at `0..k-1` the copy still has the original entries from `k` on, and every non-null entry is never changed |
| Interpolation.Interpolated | helpers/stock-helper.js:48-77 | the result has the input's length, keeps every non-null entry, and is the input itself when the input has no null |
| Interpolation.StateWhenReaching | helpers/stock-helper.js:58-75 | when the scan reaches `k` the copy is the final result to the left of `k` and the input from `k` on |
| Interpolation.InterpolatedIsRollingFill | helpers/stock-helper.js:58-75 | the scan meets its step-free description: each null becomes the window mean of the series as it stands when the scan reaches it |
| Interpolation.RollingFillUnique | helpers/stock-helper.js:58-75 | at most one series meets that description, so it determines the result |
| Interpolation.AllNullWindowStaysNull | helpers/stock-helper.js:70-73 | a null whose window (as the scan sees it) is all null is left null |
| Interpolation.MeanWithin | helpers/stock-helper.js:71-72 | a mean of values in `[lo, hi]` lies in `[lo, hi]` |
| Interpolation.StepWithin | helpers/stock-helper.js:59-73 | one iteration keeps every value in the range of the existing values |
| Interpolation.InterpolatedWithin | helpers/stock-helper.js:48-77 | every value of the repaired series lies in the range of the input's values |
| Interpolation.FiveDayScenario | helpers/stock-helper.js:48-77 | `[10, null, 12, 13, 14]` with the default window becomes `[10, 12.25, 12, 13, 14]` |
| Interpolation.ReplacementsFeedLaterWindows | helpers/stock-helper.js:65-72 | in `[0, null, null, 6]` with window 1, the 0 filled in at index 1 takes part in index 2's mean (3, where the input's own window gives 6) |
| Interpolation.RollingAverageInterpolation | helpers/stock-helper.js:48-77 | the loop over the copy returns `Interpolated(prices, windowSize)`, which meets the rolling-fill description |
| Padding.Padded | helpers/stock-helper.js:80-87 | the result has length `totalLength`; a shorter series is preceded by `totalLength - |arr|` NaN entries, and a longer one keeps only its last `totalLength` entries |
| Padding.FillWithNaN | helpers/stock-helper.js:80-87 | the NaN-filled buffer with the `forEach` writes equals `Padded(arr, totalLength)` |
| Crossover.StrengthOf | helpers/stock-helper.js:123-133 | `'unknown'` exactly when an average is NaN; `true` exactly when SMA(10) is at least SMA(50); `false` exactly when it is below |
| Crossover.CrossOf | helpers/stock-helper.js:136-144 | a golden cross exactly on a step from `false` to `true`, a death cross exactly on a step from `true` to `false` |
| Crossover.Strengths | helpers/stock-helper.js:123-133 | the state of every index, pointwise |
| Crossover.CrossesFrom | helpers/stock-helper.js:119-147 | the threaded scan gives, at each index, the cross of the previous state (the start state at index 0) and the current one |
| Crossover.Crosses | helpers/stock-helper.js:119-147 | the scan started from `'unknown'`: pointwise crosses, and never a cross at index 0 |
| Crossover.GoldenCrossesAlternate | helpers/stock-helper.js:136-147 | over a stretch with no unknown state, between two golden crosses lies a death cross |
| Crossover.DeathCrossesAlternate | helpers/stock-helper.js:136-147 | over a stretch with no unknown state, between two death crosses lies a golden cross |
| Crossover.FirstWeakAfter | helpers/stock-helper.js:136-147 | from a strong state to a later weak one there is a first index where strong turns weak |
| Crossover.FirstStrongAfter | helpers/stock-helper.js:136-147 | from a weak state to a later strong one there is a first index where weak turns strong |
| Decimal.Digits | helpers/stock-helper.js:178 | `toString()` of a non-negative integer is a non-empty digit string with no leading zero except for 0 itself |
| Decimal.ValueOfDigits | helpers/stock-helper.js:178 | reading the digit string back gives the number |
| Decimal.DigitsLength | helpers/stock-helper.js:178 | the digit string has at most `k` digits exactly when the number is below `10^k` |
| VolumeFormat.Round | helpers/stock-helper.js:177 | `Math.round(x)` is the integer within half of `x`, halves rounded up |
| VolumeFormat.GroupDigitsKeepsDigits | helpers/stock-helper.js:178 | removing the separators from the grouped string gives the digits back |
| VolumeFormat.GroupDigitsCommaPositions | helpers/stock-helper.js:178 | a comma stands exactly where the comma and the characters after it make whole `,ddd` groups, and the first character is the first digit |
| VolumeFormat.GroupDigitsShape | helpers/stock-helper.js:178 | the first group has one to three digits and there is a comma exactly when there are more than three digits |
| VolumeFormat.FormatNumberShape | helpers/stock-helper.js:176-179 | for `x >= 0`, `formatNumber(x)` is the digits of `Math.round(x)` with commas as above, and has a comma exactly when the rounded value is at least 1000 |
| VolumeFormat.RoundThousands | helpers/stock-helper.js:150-151 | a whole number of shares `v` shows `Math.round(v / 1000) == (v + 500) / 1000` lots |
| VolumeFormat.MillionExample | helpers/stock-helper.js:176-179 | `formatNumber(1234567)` is `"1,234,567"` |
| VolumeFormat.SmallExamples | helpers/stock-helper.js:176-179 | `formatNumber(999)` is `"999"` and `formatNumber(0.4)` is `"0"` |
| StockRecords.NumbersOf | helpers/stock-helper.js:98 | the volume array read as numbers: an entry is present exactly when it is a number, with that number |
| StockRecords.NumberCell | helpers/stock-helper.js:150 | a possibly missing number is a number or `null` |
| StockRecords.VolumeText | helpers/stock-helper.js:150 | an interpolated volume shows as `formatNumber(v / 1000)`, and a residual null shows as `"0"` |
| StockRecords.FormattedVolume | helpers/stock-helper.js:151 | a raw volume becomes `null` exactly when it is `null` or zero, and its formatted thousands otherwise |
| StockRecords.RewrittenVolumes | helpers/stock-helper.js:151 | the rewritten volume array keeps its length |
| StockRecords.Records | helpers/stock-helper.js:121-169 | one record per timestamp |
| StockRecords.ColumnsOf | helpers/stock-helper.js:97-116 | the interpolated and padded series all have the length of the timestamps |
| StockRecords.ProcessedRecords | helpers/stock-helper.js:90-173 | one record per timestamp with `id == i + 1`, its timestamp, closing price and symbol, the interpolated price, the three padded indicators, the interpolated volume text and the formatted raw volume |
| StockRecords.ClassifyStrength | helpers/stock-helper.js:123-133 | the nested tests give `StrengthOf` |
| StockRecords.ClassifyCross | helpers/stock-helper.js:136-147 | the three-part test gives `CrossOf` |
| StockRecords.BuildRecords | helpers/stock-helper.js:119-169 | the `map` with its carried previous state returns `Records(c)` and leaves the volume array rewritten |
| StockRecords.ProcessStockData | helpers/stock-helper.js:90-173 | returns `ProcessedRecords` of the inputs and leaves `volumes` as `RewrittenVolumes` of its old contents |
| StockRecords.StrengthStates | helpers/stock-helper.js:123-133 | a record's `isSma10Strong` says how its own `sma10` and `sma50` compare, in all three directions |
| StockRecords.CrossesMarkFlips | helpers/stock-helper.js:136-147 | a record is a golden cross exactly when the previous record is `false` and it is `true`, a death cross exactly on the opposite flip, and the first record is neither |
| StockRecords.GoldenCrossesAlternateInRecords | helpers/stock-helper.js:136-147 | among the returned records, between two golden crosses with no `'unknown'` between them lies a death cross |
| StockRecords.WarmUpIsUnknown | helpers/stock-helper.js:107-147 | the records before SMA(50)'s first value are `'unknown'` and carry no cross |
| StockRecords.CompletePricesUnchanged | helpers/stock-helper.js:97-165 | with no gap in the prices, every record's interpolated price is its closing price |
| StockRecords.RewrittenVolumesMatchRecords | helpers/stock-helper.js:151-166 | the caller's volume array ends up holding each record's `volume` field, `null` exactly for missing or zero volumes |
| CsvExport.Keys | helpers/csv-helper.js:9 | the property names of the first record, in order |
| CsvExport.Reverse | helpers/csv-helper.js:79 | `reverse()` puts entry `|s|-1-i` at `i` |
| CsvExport.DoubleQuotes | helpers/csv-helper.js:22 | doubling the quotes never shortens the text |
| CsvExport.EncodeField | helpers/csv-helper.js:14-25 | a value is changed exactly when it is a string holding a comma, a quote or a line feed; the change wraps the string's doubled-quote text in quotes |
| CsvExport.Values | helpers/csv-helper.js:14-25 | one encoded value per record, in record order |
| CsvExport.Texts | helpers/csv-helper.js:27 | `join` writes each element's text, pointwise |
| CsvExport.WithBom | helpers/csv-helper.js:38-39 | the content is the byte order mark followed by the CSV text |
| CsvExport.RowsFileContent | helpers/csv-helper.js:35-39 | no content exactly when there is no record (the conversion throws); otherwise the BOM and `convertToCSV` |
| CsvExport.InverseRowsFileContent | helpers/csv-helper.js:90-94 | the same for the inverse variant |
| CsvRoundTrip.Transposed | helpers/csv-helper.js:9-28 | the table the export stands for has one row per key of the first record, each with the key and one field per record |
| CsvRoundTrip.ReadQuotedDoubled | helpers/csv-helper.js:22 | a field with its quotes doubled and a closing quote reads back as the original text |
| CsvRoundTrip.ReadFieldWritten | helpers/csv-helper.js:17-24 | every text reads back from the way the export writes it, quoted or not |
| CsvRoundTrip.ReadRecordWritten | helpers/csv-helper.js:27 | a line of written fields joined by commas reads back as those fields |
| CsvRoundTrip.ReadTableWritten | helpers/csv-helper.js:31 | lines of at least two fields joined by line feeds read back as the table, with no line lost |
| CsvRoundTrip.EncodedText | helpers/csv-helper.js:14-27 | the join text of an encoded value is its own text as the export writes it |
| CsvRoundTrip.LineWritten | helpers/csv-helper.js:27 | a line is the written form of the key and the values' texts |
| CsvRoundTrip.ConvertToCSVReadsBack | helpers/csv-helper.js:7-32 | the export is exactly the written lines of the transposed table joined by line feeds, and read back it is that table: one record per key of the first record in key order, each holding the key and then the property's text in every record, in record order |
| CsvRoundTrip.ConvertToCSVInverseReadsBack | helpers/csv-helper.js:57-87 | the inverse export is exactly the written lines of the reversed table joined by line feeds, and read back it has the same rows in the same key order with the fields after the key in reverse record order |
| CsvRoundTrip.WrittenTableEnd | helpers/csv-helper.js:27-31 | written lines of two or more fields, joined by line feeds, are empty or end in something other than a line feed |
| CsvRoundTrip.ConvertToCSVNoFinalLineFeed | helpers/csv-helper.js:31 | the export has no line feed after its last line |
| CsvRoundTrip.ConvertToCSVInverseNoFinalLineFeed | helpers/csv-helper.js:86 | the inverse export has no line feed after its last line |
| CsvRoundTrip.InverseIsReversedRecords | helpers/csv-helper.js:57-87 | when the first and last records have the same key list, the inverse export is the plain export of the reversed records |
| CsvRoundTrip.ReverseValues | helpers/csv-helper.js:64-79 | reversing the mapped values is mapping the reversed records |
| CsvRoundTrip.RowsFileReadsBack | helpers/csv-helper.js:35-39 | the file content is present, and after its byte order mark it reads back as the transposed table |
| KeepAlive.TrimStart | helpers/req-helpers.js:38-39 | `parseInt` drops exactly the leading white space |
| KeepAlive.LeadingDigits | helpers/req-helpers.js:38-39 | the digits `parseInt` reads are the longest digit prefix |
| KeepAlive.BreakHour | helpers/req-helpers.js:38 | the parsed setting when there is one, 0 when the setting is missing or not a number |
| KeepAlive.ContinueHour | helpers/req-helpers.js:39 | never 0: the parsed setting when it is a non-zero number, 6 when it is missing, not a number or zero |
| KeepAlive.ToggleOn | helpers/req-helpers.js:11 | on exactly when the variable is set and lower-cases to `"true"` |
| KeepAlive.QuietHoursCases | helpers/req-helpers.js:45-52 | quiet in `[break, continue)` when break < continue, at or after break or before continue otherwise; equal hours make every hour quiet |
| KeepAlive.QuietIsForwardArc | helpers/req-helpers.js:45-52 | on the 24-hour clock the quiet hours are the forward arc from the break hour to the continue hour, or the whole day when they are equal |
| KeepAlive.QuietCountUpTo | helpers/req-helpers.js:45-52 | the number of quiet hours below `n`, in both cases |
| KeepAlive.QuietHoursPerDay | helpers/req-helpers.js:45-52 | a day has `(continue - break) mod 24` quiet hours, or 24 when the two are equal |
| KeepAlive.CheckAt | helpers/req-helpers.js:58 | a check sends a request exactly when the hour is not quiet |
| KeepAlive.Checks | helpers/req-helpers.js:55-65 | no check when the toggle is off; otherwise one per observed hour, sending exactly at the hours that are not quiet |
| KeepAlive.ParseIntOfText | helpers/req-helpers.js:38-39 | `parseInt` skips leading white space, reads one sign and the digits, and ignores what follows them |
| KeepAlive.ParseSignedOf | helpers/req-helpers.js:38-39 | a sign and a digit run read as the signed value of the digits |
| KeepAlive.ParseIntOfDigits | helpers/req-helpers.js:38-39 | a written integer, with or without a sign, white space before it and anything after it, reads back as itself |
| KeepAlive.TrimWhiteSpace | helpers/req-helpers.js:38-39 | white space before a non-blank text is dropped |
| KeepAlive.LeadingDigitsOf | helpers/req-helpers.js:38-39 | the digit run of a digit string followed by a non-digit is that string |
| KeepAlive.SettingsOfDecimal | helpers/req-helpers.js:38-39 | a setting written as a whole number is that number, except that a zero continue hour becomes 6 |
| KeepAlive.DefaultScheduleSkipsNight | helpers/req-helpers.js:38-62 | with both hours unset, a check sends a request exactly at hours 6 to 23, and a day has 6 quiet hours |

## Left out

- The SMA(10), SMA(50) and RSI(14) series come from the `technicalindicators` library, whose code is not part of this model. They are parameters of `StockRecords.ProcessStockData`, with `None` where the library's output is NaN.
- `getStockData` (helpers/stock-helper.js:13-44) is left out: the HTTP request, the response shape and the `moment` date formatting. The timestamps are given as strings.
- The `TypeError` for a non-array argument of `rollingAverageInterpolation` cannot arise in the model, because its input is a sequence.
- Floating point: prices, volumes and means are `real`, so rounding errors and IEEE special values other than NaN are not modelled. `Math.round` is `floor(x + 1/2)` on reals.
- Decimal.Digits: `Number.prototype.toString` writes numbers from 1e21 up in exponent notation (for example `1e+21`), while `Decimal.Digits`, and so `VolumeFormat.FormatNumber`, always gives plain digits. Volumes of that size are not modelled.
- The conversion of a JavaScript number to text in CSV fields is the parameter `showNumber`. The round-trip lemmas assume its results hold no comma, quote or line feed, as JavaScript's do.
- `Padding.FillWithNaN`: when the series is longer than `totalLength`, the source also writes its first entries to negative indices. Those become properties of the JavaScript array object, not elements, and the model skips them. The elements, which are what the callers read, are modelled.
- `StockRecords.BuildRecords`: line 150 writes each interpolated volume's formatted text back into the function's private copy of the interpolated volumes. The model computes that text (`StockRecords.VolumeText`) and stores it in the record, but does not keep the private array, which nothing reads afterwards.
- `CsvRoundTrip.ConvertToCSVReadsBack` and `CsvRoundTrip.ConvertToCSVInverseReadsBack` hold only when the first record's property names have no comma, quote or line feed, because the export writes names unquoted. The record names of `processStockData` meet this.
- `CsvExport.Get` returns the first property with the name. JavaScript objects have unique property names, so the case of a repeated name is not modelled.
- `fs.writeFile`, the Promise wrappers and the console output of helpers/csv-helper.js:41-49 and 96-104 are I/O; the model stops at the text handed to the file system.
- In helpers/req-helpers.js, the following are I/O or timers and are left out. The hour each check observes is a parameter of `KeepAlive.Checks`.
  - `dotenv`, the server URL and the axios request with its counter `i1` (lines 1-30);
  - the `parseFloat` interval computation (lines 33-35);
  - the Taipei clock read (line 42);
  - the `setInterval` timer (line 61).
- `KeepAlive.ParseInt`:
  - exact integers stand for `parseInt` results above 2^53, which JavaScript rounds;
  - `-0` is 0, which agrees with the `||` fallbacks because both are falsy.
- `KeepAlive.ToggleOn` lower-cases only ASCII letters. No other Unicode character lower-cases to `t`, `r`, `u` or `e`, so the comparison with `"true"` gives the same answer as `toLowerCase`.
- controllers/stock-controller.js, app.js and routes/index.js are routing and file handling, and are outside the model.
