# financial-data-pipeline, modelled in Dafny

The pipeline collects stock prices into one `stocks` table. Each row holds a ticker, a Unix time, high, low, avg, sale and a JSON `meta` object. It also writes that table out as a PostgreSQL script. This project models its four pieces of decision logic as pure functions and small state machines, and proves what they promise.

- `market_check.dfy` (`MarketCheck`) models the NYSE session oracle. It has two questions:
  - is the market open now;
  - should a monitor start now, which allows starting five minutes before the open.

  It also models the exit code a scheduler reads, which fails closed. Instants are integer minutes after midnight, Eastern Time. The current instant's seconds are floored to the whole minute, which decides every comparison exactly, because the calendar's open and close times fall on whole minutes. The calendar's answer for today is an input, and may be an error. Reasons are datatypes that carry the instants they would print.
- `backfill.dfy` (`Backfill`) models the historical backfill:
  - the conversion of one provider aggregate into a row, with the millisecond-to-second truncation, the vwap-or-midpoint average and the meta fields;
  - the add/commit loop, which commits every 1000 rows and once at the end;
  - one rollback and a closed session on any failure.
- `live_snapshot.dfy` (`LiveSnapshot`) models the live snapshot. One day of minute bars folds into one row:
  - the maximum high, the minimum low and their midpoint;
  - the last close;
  - a volume from a reverse scan of at most five bars;
  - a meta object with defaults for missing `info` entries.

  The per-ticker loop skips a failing ticker and commits once.
- `export_data.dfy` (`Export`) models the SQL dump:
  - the `write_batch` tuple text and separators;
  - the meta literal, with `NULL` for a false meta;
  - chunking into batches, the zero-count early return and the order of the sections.
- `sql_text.dfy` (`SqlText`) supports the export. It holds:
  - single-quote doubling as section 5.3 of ISO/IEC 9075-2 prescribes for a character string literal;
  - a reader for such a literal, used to show the written literals read back;
  - Python's `str(n)` and `format(n, ",")` for integers.
- `canonical.dfy` (`Canonical`) defines the row record and its `meta` object.
- `store.dfy` (`Store`) is an abstract transactional session. It tracks durable rows, pending rows, a log of commit sizes, a rollback count and a closed flag, and stands in for the relational session that the programs drive.

## Model

| member | source | states |
|---|---|---|
| MarketCheck.ClosureOf | market_check.py:28-33 | With no session today the reason is Weekend (carrying the day) exactly when the weekday is 5 or 6, and Holiday otherwise. |
| MarketCheck.MarketStatus | market_check.py:39-53 | Open exactly when a schedule exists and open <= now < close, so the market is closed at the close instant. No schedule gives closed with the weekend/holiday reason. The reason is BeforeOpen exactly before the open, and it carries the open time. The status is open exactly when the reason is one of the two open reasons. The after-close reasons hold exactly when now >= close. The early-close tags, in both the open and the closed branch, hold exactly when the close hour is 13. Every reason carries the close time it would print. |
| MarketCheck.ShouldStart | market_check.py:82-90 | Start exactly when a schedule exists and open - 5 <= now < close, and exactly when the reason is GoodTime. TooEarly holds exactly before open - 5 and carries that instant. TooLate holds exactly from the close on and carries the close. |
| MarketCheck.OpenImpliesStart | market_check.py:39-90 | Whenever the status says open, the start decision says start. |
| MarketCheck.StartButNotOpenIsLead | market_check.py:82-90 | Start is true while the status is closed exactly in the lead minutes [open - 5, open) of a day whose close is later. |
| MarketCheck.ExitCode | market_check.py:92-121 | The exit code is 0 or 1. A 0 requires exactly one argument that is `status` or `should_start`, and a calendar that answered. |
| MarketCheck.StatusExitZeroIff | market_check.py:100-105 | `status` exits 0 exactly when the calendar answered with a schedule and open <= now < close. |
| MarketCheck.ShouldStartExitZeroIff | market_check.py:107-112 | `should_start` exits 0 exactly when the calendar answered with a schedule and open - 5 <= now < close. |
| MarketCheck.FailClosed | market_check.py:93-121 | A calendar error, a wrong argument count or an unknown command always exits 1. |
| Backfill.MillisToSeconds | backfill.py:58 | The seconds are the milliseconds divided by 1000 and truncated toward zero. For ms >= 0, s * 1000 <= ms < s * 1000 + 1000. |
| Backfill.ToStock | backfill.py:58-78 | Ticker, high, low and close (as sale) are copied unchanged. The time is the truncated seconds. avg is vwap when vwap is present and non-zero, and (high + low) / 2 otherwise. Meta has exactly the keys open, volume, transactions and vwap, in that order. It holds open, volume, and transactions and vwap, with null when absent. |
| Backfill.MidpointWithinRange | backfill.py:59 | Without a usable vwap, the stored avg lies between low and high. |
| Backfill.StageAll | backfill.py:49-86 | The loop stages the rows in order and commits exactly when the running count reaches a positive multiple of 1000. When it stops because of a failure, the durable rows are the whole batches committed before the failure. |
| Backfill.Run | backfill.py:30-101 | A missing or empty API key returns before any session exists. Otherwise the session ends closed with nothing pending, and a run raises exactly when the fault strikes. A run without a fault makes every row durable with n / 1000 + 1 commits, the last one terminal, even for n = 0. A failure after k adds rolls back once and leaves the first 1000 * (k / 1000) rows durable. A failing j-th commit leaves 1000 * (j - 1) rows. |
| LiveSnapshot.MaxHigh | yfinance_fetcher.py:57 | The result is at least every bar's High and equals some bar's High. |
| LiveSnapshot.MinLow | yfinance_fetcher.py:58 | The result is at most every bar's Low and equals some bar's Low. |
| LiveSnapshot.HighNotBelowLow | yfinance_fetcher.py:57-58 | If some bar has High >= Low, the series' maximum high is at least its minimum low. |
| LiveSnapshot.SelectVolumeSpec | yfinance_fetcher.py:61-71 | The chosen volume is that of the newest bar with a positive volume among the newest min(5, n) bars, with every newer bar in that window at or below zero. It is 0 exactly when no bar in the window has a positive volume. |
| LiveSnapshot.OlderBarsIgnored | yfinance_fetcher.py:63-64 | Bars older than the five newest never change the chosen volume. |
| LiveSnapshot.Summarize | yfinance_fetcher.py:54-71 | A non-empty series folds into the maximum High, the minimum Low, their midpoint as avg, the last bar, and the volume the scan chooses. |
| LiveSnapshot.Snapshot | yfinance_fetcher.py:38-114 | A fetch exception or an empty minute series gives no row. Otherwise a row exists exactly when the `info` values passed through float() convert. The row carries the requested ticker, the run's time, the series' high/low/avg, and the last close as sale. |
| LiveSnapshot.SnapshotHighAtLeastLow | yfinance_fetcher.py:57-59 | A snapshot row whose series has a bar that is not inverted has high >= low. |
| LiveSnapshot.SnapshotRowMeta | yfinance_fetcher.py:95-106 | The meta keys appear in the program's order. Meta holds source yfinance, the chosen volume, the last bar's open and close, day_high/day_low/previous_close as the `info` values or their fallbacks, market_cap and pe_ratio passed through (null when absent), and the wall-clock stamp. |
| LiveSnapshot.InfoDefaults | yfinance_fetcher.py:100-102 | Each missing key falls back on its own: dayHigh to the computed high, dayLow to the computed low, previousClose to 0. With all three missing a row is always built. |
| LiveSnapshot.InfoFloat | yfinance_fetcher.py:100-102 | `float(info.get(key, default))`: a missing key gives the default. A float, an int or a bool converts to its value (True as 1.0). Null fails to convert. In this model any text also fails, although Python's `float()` accepts numeric text (see Left out). |
| LiveSnapshot.CollectedShape | yfinance_fetcher.py:32-114 | A run stages at most one row per ticker. Every row carries a requested ticker and the single time captured before the loop. |
| LiveSnapshot.CollectedSplits | yfinance_fetcher.py:35-114 | Collection distributes over concatenation of the ticker list. A ticker's failure affects only its own row, and rows keep the ticker order. |
| LiveSnapshot.Run | yfinance_fetcher.py:31-126 | All staged rows are committed in one commit. A failing commit rolls back once, leaves nothing durable and raises. The session is closed on every path. |
| SqlText.Escape | export_data.py:144 | Doubling quotes lengthens the text by exactly its number of single quotes. |
| SqlText.UnescapeEscape | export_data.py:144 | Reading doubled quotes back as single quotes recovers the original text. |
| SqlText.EscapePairsQuotes | export_data.py:150 | In escaped text every quote is immediately followed by a second quote. |
| SqlText.ScanEscaped | export_data.py:144-150 | A quoted, escaped value reads back as exactly that value. The reader stops at the closing quote, whatever text follows that does not start with a quote. |
| SqlText.NatText | export_data.py:153 | The decimal text of n is a non-empty digit string without a leading zero, and it denotes n. |
| SqlText.IntText | export_data.py:153 | `str(time)`: a non-negative time is its digits without a leading zero. A negative time is `-` followed by the digits of its magnitude. |
| SqlText.GroupedCommas | export_data.py:61 | The commas of `format(n, ",")` sit before each group of three digits counted from the right, and nowhere else. With `SqlText.GroupedDigits` this fixes the grouped text completely. |
| SqlText.GroupedDigits | export_data.py:61 | Removing the commas from the thousands-grouped form gives the plain decimal form. |
| Export.FalsyMetaIsNull | export_data.py:147 | With the meta decoded into an object, an absent or empty meta is written as the bare keyword NULL. |
| Export.JsonString | export_data.py:147 | `json.dumps` of a text with `ensure_ascii`: a double-quoted literal, at least two characters longer than the text, with every character printable ASCII. |
| Export.RawMetaDoubleEncoded | export_data.py:147-150 | On the raw SQLite path, a non-empty stored meta text is written as a quoted literal that reads back as `json.dumps` of that text. The result is a JSON string literal, never the stored object text. |
| Export.EmptyStoredObjectQuoted | export_data.py:147-150 | On the raw SQLite path a stored `{}` is written `'"{}"'::jsonb`, where the decoded empty meta is written NULL. |
| Export.MetaLiteralReadsBack | export_data.py:147-150 | Any other meta is written as a quoted literal that reads back as exactly its JSON text, followed by `::jsonb`. |
| Export.TickerReadsBack | export_data.py:144-154 | The ticker literal of a tuple reads back as exactly the row's ticker, whatever quotes it contains. The rest of the tuple follows the closing quote. |
| Export.WrittenIsJoin | export_data.py:142-160 | After k tuples the loop has written them joined by `,\n`. Then comes `,\n` while more remain, and `;\n` after the last. |
| Export.WriteTuples | export_data.py:142-160 | The loop's output is the tuples joined by `,\n` and terminated by `;\n`. |
| Export.WriteBatch | export_data.py:133-162 | An empty batch writes nothing, and only an empty batch does. Otherwise the output is the INSERT head, the joined tuples, `;\n` and a blank line. |
| Export.EffectiveBatch | export_data.py:106-108 | The effective batch size is the first pending-batch length, counting from one appended row, at which the test `len(batch) >= batch_size` fires. For a batch_size below 1 it is 1. |
| Export.FlushAtEffectiveBatch | export_data.py:108 | For every non-empty pending batch, the flush test fires exactly when the batch holds at least the effective batch size of rows. |
| Export.OneRowPerInsert | export_data.py:105-112 | With batch_size below 1, every INSERT holds exactly one row, in row order. |
| Export.ChunksShape | export_data.py:105-117 | Concatenating the chunks gives back the rows in order. Every chunk but the last holds exactly the effective batch size of rows, and the last is non-empty and no larger. |
| Export.InsertCount | export_data.py:108-117 | With b the effective batch size, there are ceil(n / b) INSERT statements: the number c with (c - 1) * b < n <= c * b. |
| Export.BatchRows | export_data.py:94-117 | The row loop emits one INSERT per chunk of the ordered rows, and `records_written` equals the number of rows. |
| Export.Plan | export_data.py:49-124 | A zero count gives no script at all. Otherwise the sections are header, CREATE TABLE, indexes, BEGIN, one INSERT per chunk, COMMIT, and the summary of the rows written. |
| Export.ScriptOrder | export_data.py:59-124 | The file text is the header, table, indexes and BEGIN texts, the INSERT texts, then COMMIT and the summary, in that order. |
| Export.PlannedText | export_data.py:52-124 | A zero count writes no file. The planned sections render as the header, CREATE TABLE, indexes, BEGIN, the batches' INSERTs, COMMIT and the summary of the rows written. |
| Export.RunExport | export_data.py:35-130 | `main` with its failure paths. A failing count query or `open` leaves no file and re-raises. A zero count returns quietly with no file. Otherwise the file is always a prefix of the complete dump. Without a raise the file is the whole dump; a raise can still leave the whole dump, as when the logging after the last write fails. A failure while writing section k leaves the sections before it plus the part of section k already written, and a failure before COMMIT leaves only a prefix of the text that precedes COMMIT. |
| Export.PartialIsPrefix | export_data.py:57-130 | A file cut off while writing a section is a prefix of the text of any longer run of the planned sections. |
| Export.CommitAfterData | export_data.py:118-124 | COMMIT is the second-to-last planned section and appears nowhere before it, so every data section precedes it. |

## Left out

- Console output, logging, click option parsing and the debug listing of the last five volumes are not modelled. One effect of logging is kept abstractly. The f-string at backfill.py:61-63 calls `datetime.fromtimestamp` on every row, whatever the log level, and raises for an out-of-range timestamp. That raise is one of the failures `Backfill.Fault`'s `FailsAfter` stands for.
- Exit-code reasons are modelled as datatypes carrying instants. `strftime` formatting of those instants is left out.
- The network clients are inputs. The aggregate iterator is a finite sequence plus a `Fault` saying where the run raises. A ticker's `info` mapping and minute table are an `Info` record and a bar sequence, or `Unavailable` when fetching raises.
- The relational session is replaced by `Store.Session`. `database.py` and `settings.py` (engine set-up, the column declarations, environment loading) are not part of this model. The column list is used only as the `Stock` field list.
- Clocks are inputs: the current minute in Eastern Time, the Unix time of a run, and the wall-clock text written into meta and the dump header. Time-zone conversion is not modelled.
- Binary floating point is not modelled: prices are `real`. This leaves out rounding in the midpoint and `float()` on large integers. It also leaves out the float division in `int(ms / 1000)`, which for extremely large timestamps can round before it truncates. The model divides exactly.
- `json.dumps` and Python's float-to-text are the two uninterpreted functions of `Export.Formats`.
- The table name and the WHERE clause are spliced into the SQL unescaped, exactly as in the program. No injection-safety claim is made for them.
- LiveSnapshot.InfoFloat: treats every string `info` value as one that `float()` rejects. Python's `float()` parses numeric text such as `"187.5"`, and for such a value the program builds the row where the model skips the ticker with `BadInfoValue`. Python's number parsing is not modelled.
- LiveSnapshot.Snapshot: inherits that gap for string `info` values. It also takes the minute volumes as integers already. The program applies `int()` to each scanned `Volume` entry (yfinance_fetcher.py:64). That `int()` truncates a fractional volume before the `> 0` test, and raises on NaN, which skips the ticker (yfinance_fetcher.py:112-114). Neither the truncation nor that skip is modelled.
- Meta values are JSON scalars. Nested values that the provider could return for `marketCap` or `trailingPE` are not modelled.
- Meta keys are the `Canonical.Key` constructors, plus `Other` for any other key.
- Export.Plan: models only a run that completes. The failure paths, and the partial file a failure leaves, are `Export.RunExport`. `Export.Plan` takes the count query's result and the ordered rows as separate inputs. Nothing relates them, just as nothing relates them in the program.
- Export.FalsyMetaIsNull: holds for a meta decoded into an object, which is what the rest of the export model assumes. The program's untyped `SELECT *` on SQLite hands over the stored JSON text instead, which `Export.RawMetaLiteral` models (see Findings). On that path an empty object is the truthy text `{}` and is not written NULL.
- The JSON text of a decoded meta (`json.dumps` of an object) stays uninterpreted. The string form that `json.dumps` gives a text is defined character by character in `Export.JsonChar`. Its contracts state only the quotes, the printable-ASCII alphabet and that ordinary characters are kept; no decoder is modelled to prove a round trip.
- Export.RunExport: the fault is an input, not tied to the operation that raised. `WriteFails(k, cut)` allows any cut of section k's text, which is more than the cuts the program's separate `f.write` calls can produce. A failing `open` is modelled as leaving no file, and whatever an earlier run left at that path is not modelled.
- The model does not show that the whole dump parses as SQL. Only each quoted literal is shown to read back.
- Backfill.Run: a raising `rollback` or `close` is not modelled. A raising `session.add`, a raising fetch and the logging raise are all `FailsAfter`. A run has at most one fault, and the re-raise is modelled as the `raised` flag.
- LiveSnapshot.Run: only the final commit may fail, because every other exception is caught per ticker. A failing rollback is not modelled.
- The `__main__` blocks of `backfill.py` and `yfinance_fetcher.py` only parse arguments and are not modelled.

## Findings

| source | as written | input that shows it | evidently intended | confidence | as-written member | corrected member |
|---|---|---|---|---|---|---|
| export_data.py:90-150 | The rows come from an untyped `text()` select. On the default SQLite database (settings.py:7) `record['meta']` is the stored JSON text, not an object. `json.dumps` then re-encodes that text as a JSON string literal. | A row whose stored meta is `{"open": 1.5}` is written `'"{\"open\": 1.5}"'::jsonb`, a jsonb string rather than an object. A stored `{}` is written `'"{}"'::jsonb` where NULL was meant (`Export.EmptyStoredObjectQuoted`). | The meta object is written as its own JSON text cast to jsonb, and an empty or absent meta as NULL. | medium; not executed; rests on the SQLite driver returning an untyped JSON column as text | Export.RawMetaDoubleEncoded | Export.MetaLiteralReadsBack |
