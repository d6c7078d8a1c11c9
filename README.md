# VAST exporter and data formatting, modelled in Dafny

This project models two parts of VAST, the network telemetry engine.

The first part is the **exporter** (`libvast/src/system/exporter.cpp`), VAST's per-query coordinator. For one query it:

- asks the index which partitions qualify;
- forwards the index's hit sets to the archive;
- filters the table slices the archive returns against the query;
- buffers the selected rows;
- ships them to the sink as the sink asks for them.

The actor is the class `Exporter.Exporter`, with one method per message handler. Everything the exporter sends is appended, in order, to the field `outbox`. A handler that answers `caf::skip` changes nothing and reports `Skipped`.

The second part is the **formatting helpers** of `libvast/vast/fmt_integration.hpp`:

- the format-spec parser of `vast_formatter_base` (module `FormatSpec`). It is a class whose `Parse` assigns the four option fields as the iterator advances.
- Howard Hinnant's `civil_from_days`, the split of a nanosecond time point, and the `YYYY-MM-DDTHH:MM:SS[.fff[fff[fff]]]` timestamp layout (module `Civil`). This layout is the `full-date "T" partial-time` form of section 5.6 of RFC 3339, without a time offset.
- the JSON and NDJSON print traits, string quoting, and the `json_visitor` that writes lists, maps and records (module `JsonTraits`). The visitor is a class that owns its output and its print traits, and it updates both as it walks the data. `Format` is the reference definition of what it writes.

Table slices, splitting, selections and hit sets are in module `Slices`. A row is an opaque handle, since only row counts and order matter to the exporter.

Files:

- `slices.dfy`
- `exporter.dfy`
- `formatspec.dfy`
- `civil.dfy`
- `jsontraits.dfy`

The exporter's class invariant `Valid()` states that:

- `cached` is the number of buffered rows;
- every buffered slice is non-empty;
- the accumulated hits are the disjoint union of the hit sets forwarded to the archive, one per issued lookup;
- ids are never counted twice;
- `received <= expected`;
- an outstanding archive lookup implies `received < expected`.

Every handler keeps `Valid()`.

## Model

| member | source | states |
|---|---|---|
| Slices.Split | libvast/src/system/exporter.cpp:59-64 | `split(s, k)` gives the first `k` rows and the remaining rows, both with the slice's layout, and together they are the slice again, in order |
| Slices.Rank | libvast/src/system/exporter.cpp:180 | the rank of a selection within a slice of `n` rows is at most `n` |
| Slices.SelectRows | libvast/src/system/exporter.cpp:180-186 | the selected sub-slice keeps the layout and holds exactly `rank(selection)` rows |
| Slices.FlattenAppend | libvast/src/system/exporter.cpp:186 | appending slices to the buffer appends their rows, in order |
| Slices.TotalRowsAppend | libvast/src/system/exporter.cpp:185-186 | the row count of a buffer is additive over appends |
| Slices.TotalRowsIsLength | libvast/src/system/exporter.cpp:185-186 | the row count of a buffer is the length of its concatenated rows |
| Slices.UnionAllAppend | libvast/src/system/exporter.cpp:390 | folding one more hit set into the union adds it to the union and its rank to the sum of ranks |
| Slices.UnionRank | libvast/src/system/exporter.cpp:387-390 | the rank of the union of pairwise disjoint hit sets is the sum of their ranks |
| Exporter.ToSinksAppend | libvast/src/system/exporter.cpp:72 | shipping one more slice appends one sink message for it |
| Exporter.ShipHead | libvast/src/system/exporter.cpp:54-65 | one round of `ship_results` ships at most `requested` rows; it ships exactly `requested` rows or consumes the head slice; shipped and remaining rows add up to the buffer |
| Exporter.ShipAccounting | libvast/src/system/exporter.cpp:50-73 | over the whole loop the shipped and the remaining rows add up to the buffer; at most the demand is shipped; either all the demand is met or the buffer is emptied |
| Exporter.ShipKeepsOrder | libvast/src/system/exporter.cpp:50-73 | the shipped rows followed by the remaining rows are the buffered rows, in order |
| Exporter.ShipSlicesFit | libvast/src/system/exporter.cpp:55-65 | every shipped slice has between 1 and `requested` rows, and no remaining slice is empty |
| Exporter.ShipSplitsHead | libvast/src/system/exporter.cpp:58-64 | a head slice larger than the demand is split: exactly `requested` rows are shipped and the rest stays at the head |
| Exporter.ShipHeadNonEmpty | libvast/src/system/exporter.cpp:55-65 | each round ships at least one row and leaves no empty slice behind |
| Exporter.NoRowsNoSlices | libvast/src/system/exporter.cpp:50-51 | a buffer of non-empty slices holds no rows exactly when it is empty, so the loop's `!results.empty()` assertion holds |
| Exporter.ShipStep | libvast/src/system/exporter.cpp:46-74 | after `ship_results`, `cached` is still the buffer's row count; `cached + shipped` and `requested + shipped` are preserved; `requested == 0 \|\| cached == 0`; no other counter changes; consistency is kept |
| Exporter.ShipLoop | libvast/src/system/exporter.cpp:50-73 | the `while` loop computes exactly `Ship`, ships no more than is cached or requested, and stops with `requested == 0 \|\| cached == 0` |
| Exporter.ShipStepOf | libvast/src/system/exporter.cpp:46-74 | the ledger after `ship_results` is the old ledger with the shipped row count moved from `cached` and `requested` to `shipped` |
| Exporter.HitRequest | libvast/src/system/exporter.cpp:111-155 | the guard chain: a request is sent exactly when the query is historical, `requested > 0`, no archive lookup is outstanding and `received < expected`; it asks for `min(expected - received, 2)` partitions, which is 1 or 2 |
| Exporter.FinishedAsksNothing | libvast/src/system/exporter.cpp:42-44 | a finished query asks the index for nothing |
| Exporter.HitRequestKeepsConsistent | libvast/src/system/exporter.cpp:145-151 | asking for more hits keeps the ledger consistent and never schedules past `expected` |
| Exporter.Increment | libvast/src/system/exporter.cpp:246 | `min(max_events - n, n)` is at most `n` and at most `max_events - n`; it is `n` exactly when `2n <= max_events` |
| Exporter.AddU64 | libvast/src/system/exporter.cpp:250 | `requested += n` on a 64-bit unsigned counter: the exact sum when it fits, otherwise the sum minus 2^64 |
| Exporter.ExtendDemand | libvast/src/system/exporter.cpp:246-250 | the new demand of `extract(n)` is a 64-bit value |
| Exporter.ExtendDemandExact | libvast/src/system/exporter.cpp:246-250 | when the sum fits, `extract(n)` adds `min(max_events - n, n)`, and the demand grows exactly when `0 < n < max_events` |
| Exporter.ExtendDemandWraps | libvast/src/system/exporter.cpp:250 | a demand of `max_events - 1` extended by 2 wraps around to 0 |
| Exporter.BufferSelected | libvast/src/system/exporter.cpp:185-186 | buffering a non-empty selection adds its rank to the buffered rows and keeps every buffered slice non-empty |
| Exporter.BatchStep | libvast/src/system/exporter.cpp:178-188 | `processed` grows by the slice's rows; `cached + shipped` grows by the selection's rank; `cached` stays the buffer's row count; an empty selection changes nothing else |
| Exporter.Exporter.constructor | libvast/src/system/exporter.cpp:193-197 | a new exporter has an empty ledger, buffer, checker cache and hit set, and keeps its options and collaborators |
| Exporter.Exporter.ShipResults | libvast/src/system/exporter.cpp:46-74 | `ship_results` applies `ShipStep` to the ledger and buffer and sends the shipped slices to the sink, in order |
| Exporter.Exporter.RequestMoreHits | libvast/src/system/exporter.cpp:111-155 | `request_more_hits` applies the guard chain to the ledger and sends its index request, changing nothing else |
| Exporter.Exporter.Shutdown | libvast/src/system/exporter.cpp:104-109 | `shutdown` sends a normal exit to itself unless the query is continuous, and changes no state |
| Exporter.Exporter.ExtractAll | libvast/src/system/exporter.cpp:221-233 | `extract` is ignored when `requested == max_events`; otherwise it sets `requested := max_events`, ships and asks for more hits; the total the sink has asked for grows by `max_events` exactly when handled, and no hit set is forwarded |
| Exporter.Exporter.Extract | libvast/src/system/exporter.cpp:234-254 | `extract(n)` is ignored exactly when `n == 0` or `requested == max_events`; otherwise it extends the demand, ships and asks for more hits; the total the sink has asked for grows by `min(max_events - n, n)` exactly when handled, and no hit set is forwarded |
| Exporter.Exporter.HandleBatch | libvast/src/system/exporter.cpp:157-189 | a failed `tailor` ships what is buffered and shuts down without counting the slice; otherwise the cached checker, or on a miss the tailored one, is stored for the layout, so every later slice of that layout gets the same checker, and the slice is checked and buffered as `BatchStep` says |
| Exporter.Exporter.CheckBatch | libvast/src/system/exporter.cpp:176-188 | checking a slice applies `BatchStep` and ships the result to the sink |
| Exporter.Exporter.HandleHits | libvast/src/system/exporter.cpp:366-398 | hits are skipped while `expected == 0`; an empty hit set changes nothing; a non-empty one is unioned into `hits`, increments `lookups_issued`, is sent to the archive and is the one set appended to the history of forwarded hit sets; nothing else is ever appended to that history |
| Exporter.Exporter.HitsCounted | libvast/src/system/exporter.cpp:387-393 | the rank of the accumulated hits is the sum of the ranks of the forwarded hit sets, one per issued lookup |
| Exporter.Exporter.IndexDone | libvast/src/system/exporter.cpp:399-424 | index `done` is skipped exactly while lookups are outstanding; otherwise `received += scheduled`, and then it asks for more hits, or the query is finished and shuts down; no hit set is forwarded |
| Exporter.Exporter.ArchiveDone | libvast/src/system/exporter.cpp:354-362 | archive `done` increments `lookups_complete` and the query is not finished afterwards |
| Exporter.Exporter.Run | libvast/src/system/exporter.cpp:280-292 | `run` queries the index exactly for a historical query, keeping the class invariant |
| Exporter.Exporter.HandleRunReply | libvast/src/system/exporter.cpp:294-304 | a reply with partitions sets `expected` and `scheduled`; a reply without partitions shuts down |
| Exporter.Exporter.HandleRunError | libvast/src/system/exporter.cpp:305 | an index error makes the exporter exit itself with that error, keeping the class invariant |
| Exporter.Exporter.RegisterArchive | libvast/src/system/exporter.cpp:259-268 | a historical exporter registers itself at the archive, keeping the class invariant |
| Exporter.Exporter.HandleExit | libvast/src/system/exporter.cpp:200-210 | the exit handler reports statistics unless killed, tells the index to drop further results, and quits with the reason, keeping the class invariant |
| FormatSpec.JsonSpec | libvast/vast/fmt_integration.hpp:44-70 | the JSON part of a spec ends within the spec and leaves the presentation alone |
| FormatSpec.VastFormatterBase.constructor | libvast/vast/fmt_integration.hpp:31-34 | the defaults are `a`, no NDJSON, spaces kept, indentation 2 |
| FormatSpec.VastFormatterBase.Parse | libvast/vast/fmt_integration.hpp:37-78 | `parse` assigns exactly the options `ParseSpec` gives and returns its outcome |
| FormatSpec.ParseEmpty | libvast/vast/fmt_integration.hpp:40-77 | an empty spec changes nothing and stops at its start |
| FormatSpec.ParseStopsAtBrace | libvast/vast/fmt_integration.hpp:73-77 | a successful parse of a non-empty spec stops at a `}`, the garbage check of line 74 |
| FormatSpec.ParsePresentation | libvast/vast/fmt_integration.hpp:41-43 | `a` and `y` set only the presentation, and the spec must close right after |
| FormatSpec.ParseNdjson | libvast/vast/fmt_integration.hpp:53-58 | for any text after it, `jnr` selects NDJSON without spaces and `jn` followed by anything else NDJSON with spaces; at the end of the spec `remove_spaces` is left alone; the spec must close right after, so `jn}` and `jnr}` stop at their brace whatever follows |
| FormatSpec.ParseIndentRange | libvast/vast/fmt_integration.hpp:59-68 | the indentation is left alone or set to a value in 0..99 |
| FormatSpec.ParseIndentDigits | libvast/vast/fmt_integration.hpp:59-68 | `j` or `ji` with two digits sets the indentation to their decimal value, whatever follows, and the spec must close right after them |
| FormatSpec.ParseIndentDigit | libvast/vast/fmt_integration.hpp:59-66 | `j` or `ji` with one digit not followed by another sets the indentation to that digit, and the spec must close right after it |
| FormatSpec.ParseRejects | libvast/vast/fmt_integration.hpp:73-75 | an unknown leading character is an error, `j` and `jn` are errors, and every non-empty spec without a `}` is an error |
| FormatSpec.ParseRender | libvast/vast/fmt_integration.hpp:37-78 | every option set one spec can select is selected by its rendering: parsing it from the defaults gives those options back |
| Civil.CDiv | libvast/vast/fmt_integration.hpp:196 | C++ signed division truncates toward zero: the quotient has the sign of the dividend and the remainder is in `0..b-1` for a non-negative dividend and in `-(b-1)..0` for a negative one |
| Civil.FloorByShift | libvast/vast/fmt_integration.hpp:196 | shifting a negative dividend by `divisor - 1` before truncating division gives the floor |
| Civil.Era | libvast/vast/fmt_integration.hpp:196 | the era is the floor of `z / 146097`: the day of the era lies in 0..146096 |
| Civil.DayOfEra | libvast/vast/fmt_integration.hpp:197 | the day of the era is in 0..146096, and it is `z` less the era's days |
| Civil.YearOfEra | libvast/vast/fmt_integration.hpp:198 | the year of the era is in 0..399 |
| Civil.DayOfYear | libvast/vast/fmt_integration.hpp:200 | the day of the March-based year is in 0..365 |
| Civil.DayOfYearBound | libvast/vast/fmt_integration.hpp:198-200 | the year-of-era formula never makes the day of the year negative or larger than 365 |
| Civil.MonthIndex | libvast/vast/fmt_integration.hpp:201 | the March-based month index is in 0..11 |
| Civil.DateOf | libvast/vast/fmt_integration.hpp:199-204 | the month is in 1..12 and the day in 1..31 |
| Civil.CivilFromDays | libvast/vast/fmt_integration.hpp:195-204 | `civil_from_days` gives a month in 1..12 and a day in 1..31 |
| Civil.UShort | libvast/vast/fmt_integration.hpp:204 | the `unsigned short` cast keeps a value in 0..65535 and reduces every other value into that range |
| Civil.FromDays | libvast/vast/fmt_integration.hpp:188-205 | `from_days` is the civil date with the year cast to 16 bits; the cast changes nothing for years in 0..65535 |
| Civil.Epoch | libvast/vast/fmt_integration.hpp:195 | day 0 is 1970-01-01 |
| Civil.BeforeEpoch | libvast/vast/fmt_integration.hpp:196 | day -1 is 1969-12-31, on the negative-era branch |
| Civil.FirstLeapDay | libvast/vast/fmt_integration.hpp:201-204 | day 789 is 1972-02-29 |
| Civil.DaysFromCivilFromDays | libvast/vast/fmt_integration.hpp:188-205 | `days_from_civil` inverts `civil_from_days` on every day, so distinct days get distinct dates |
| Civil.DaysFromDate | libvast/vast/fmt_integration.hpp:199-204 | the inverse recovers the day count from the era, year of era and day of year |
| Civil.YearsToEra | libvast/vast/fmt_integration.hpp:196-199 | the inverse's era division recovers the era and year of era |
| Civil.FourDigitYears | libvast/vast/fmt_integration.hpp:204 | every day from −106751 to 106751 (1677-09-22 to 2262-04-11) falls in the years 1600..2400, so the 16-bit cast is harmless there |
| Civil.SplitTime | libvast/vast/fmt_integration.hpp:211-217 | hours are in 0..23, minutes and seconds in 0..59, and sub-seconds in 0..10^9-1; together with the day they add up to the time point |
| Civil.Int64Days | libvast/vast/fmt_integration.hpp:211-213 | for a time point from −106751 days to the top of the 64-bit range, the day is within ±106751 days of the epoch and its start is a 64-bit nanosecond count |
| Civil.DayStartOverflows | libvast/vast/fmt_integration.hpp:211-213 | for a 64-bit time point before −106751 days, the day is −106752 and its start lies below −2^63 nanoseconds, so `sd - time{}` and `tp - sd` overflow |
| Civil.Digits | libvast/vast/fmt_integration.hpp:220-224 | the decimal text of a number is non-empty and all digits |
| Civil.Pad | libvast/vast/fmt_integration.hpp:220-224 | `{:0N}` gives all digits, of width `N` or the number's own length if longer |
| Civil.ValueDigits | libvast/vast/fmt_integration.hpp:220-224 | the decimal text of a number reads back as the number |
| Civil.ValueLeadingZeros | libvast/vast/fmt_integration.hpp:220-224 | leading zeros do not change the value read back |
| Civil.PadValue | libvast/vast/fmt_integration.hpp:220-231 | zero-padded text reads back as the number |
| Civil.PadExact | libvast/vast/fmt_integration.hpp:228-231 | a number below 10^k padded to `k` digits is exactly `k` characters long |
| Civil.DigitsOfPow10 | libvast/vast/fmt_integration.hpp:228-231 | 10^k - 1 has exactly `k` digits |
| Civil.FractionRoundTrip | libvast/vast/fmt_integration.hpp:225-231 | a non-zero sub-second part prints as 3, 6 or 9 digits: 3 when it is whole milliseconds, 6 when it is whole microseconds, otherwise 9; the digits read back as that part |
| Civil.LayoutPositions | libvast/vast/fmt_integration.hpp:219-224 | with fields of the printed widths, the separators `-`, `-`, `T`, `:`, `:` sit at offsets 4, 7, 10, 13 and 16 and each field sits between them |
| Civil.FourDigitPad | libvast/vast/fmt_integration.hpp:220-221 | a four-digit year prints as four characters under `{:02}` |
| Civil.TimestampLayout | libvast/vast/fmt_integration.hpp:207-234 | for every 64-bit time point from −106751 days on, the text has the RFC 3339 layout, each field reads back as the civil date and time of day, and the sub-second fraction (empty for zero) follows at offset 19 |
| JsonTraits.Inc | libvast/vast/fmt_integration.hpp:563-566 | `inc_indent` goes one level deeper for JSON and changes nothing for NDJSON; `dec_indent` after it restores the traits, so matched pairs leave them as they were |
| JsonTraits.Spaces | libvast/vast/fmt_integration.hpp:577 | the `{:<{}}` padding of an empty string to width `n` is `n` spaces |
| JsonTraits.BeforeFirst | libvast/vast/fmt_integration.hpp:538-578 | for JSON the first-item indent is a newline followed by `current_indent * indent_size` spaces; for NDJSON it is nothing |
| JsonTraits.AfterLast | libvast/vast/fmt_integration.hpp:541-578 | for JSON the after-last-item indent is a newline followed by `current_indent * indent_size` spaces; for NDJSON it is nothing |
| JsonTraits.Quoted | libvast/vast/fmt_integration.hpp:109-122 | a quoted string starts and ends with `"`, with the escaped text in between |
| JsonTraits.EscapeAllAppend | libvast/vast/fmt_integration.hpp:116-118 | escaping works piecewise over a concatenation |
| JsonTraits.EscapeAllIdentity | libvast/vast/fmt_integration.hpp:116-118 | an escaper that passes each character through leaves the string unchanged |
| JsonTraits.FieldStartLayout | libvast/vast/fmt_integration.hpp:549-582 | `format_field_start` writes the quoted name and `": "`, or only `":"` for NDJSON without spaces |
| JsonTraits.JoinSnoc | libvast/vast/fmt_integration.hpp:432-441 | one more item of an `is_first` loop adds its separator and its text |
| JsonTraits.Bracketed | libvast/vast/fmt_integration.hpp:427-447 | an empty container is its bare brackets; otherwise it is the open bracket, the items one level deeper, the after-last indent and the close bracket |
| JsonTraits.ListText | libvast/vast/fmt_integration.hpp:427-448 | the text of a list, piece by piece as `format_list` writes it |
| JsonTraits.MapText | libvast/vast/fmt_integration.hpp:456-490 | the text of a map, piece by piece as `format_map` writes it |
| JsonTraits.RecordText | libvast/vast/fmt_integration.hpp:498-520 | the text of a record, piece by piece as `format_record` writes it |
| JsonTraits.EntryText | libvast/vast/fmt_integration.hpp:467-483 | a map entry is `{`, the first-item indent, the `key` field, a comma and an indent, the `value` field, the after-last indent and `}` |
| JsonTraits.JsonVisitor.constructor | libvast/vast/fmt_integration.hpp:418-420 | the visitor starts with the given output and traits |
| JsonTraits.JsonVisitor.FormatEscaped | libvast/vast/fmt_integration.hpp:109-122 | the quoting loop appends exactly the quoted, escaped string |
| JsonTraits.JsonVisitor.FormatFieldStart | libvast/vast/fmt_integration.hpp:549-582 | `format_field_start` appends the field start for the current traits |
| JsonTraits.JsonVisitor.FormatSeparator | libvast/vast/fmt_integration.hpp:433-439 | the `is_first` branch appends the first-item indent before the first item, and a comma and an indent before every other item |
| JsonTraits.JsonVisitor.Visit | libvast/vast/fmt_integration.hpp:385-425 | visiting a value appends exactly `Format` of it and leaves the traits as found |
| JsonTraits.JsonVisitor.FormatList | libvast/vast/fmt_integration.hpp:427-448 | `format_list` appends exactly the list's text and restores the traits |
| JsonTraits.JsonVisitor.FormatItems | libvast/vast/fmt_integration.hpp:430-442 | the loop appends every item after its separator, in order |
| JsonTraits.JsonVisitor.FormatMap | libvast/vast/fmt_integration.hpp:456-490 | `format_map` appends exactly the map's text and restores the traits |
| JsonTraits.JsonVisitor.FormatEntries | libvast/vast/fmt_integration.hpp:459-488 | the loop appends every entry after its separator, in order |
| JsonTraits.JsonVisitor.FormatEntry | libvast/vast/fmt_integration.hpp:467-483 | one entry appends its `{"key": .., "value": ..}` object, with matched `inc_indent`/`dec_indent` |
| JsonTraits.JsonVisitor.FormatField | libvast/vast/fmt_integration.hpp:473-474 | a field start followed by the visit of the value appends the field's text |
| JsonTraits.JsonVisitor.FormatRecord | libvast/vast/fmt_integration.hpp:498-520 | `format_record` appends exactly the record's text and restores the traits |
| JsonTraits.JsonVisitor.FormatFields | libvast/vast/fmt_integration.hpp:501-516 | the loop appends every field after its separator, in order |
| JsonTraits.JsonVisitor.FormatMember | libvast/vast/fmt_integration.hpp:512-513 | one record field appends its `"name": value` text |
| JsonTraits.ParsedPresenter | libvast/vast/fmt_integration.hpp:585-603 | every parsed option set can be presented; JSON is chosen exactly by a leading `j`, and NDJSON exactly by a leading `jn` |
| JsonTraits.PresenterExamples | libvast/vast/fmt_integration.hpp:592-602 | `jnr`, `jn`, `j`, `ji4` and `y` select NDJSON without spaces, NDJSON with spaces, a two-space indent, a four-space indent, and nothing |
| JsonTraits.FormatJson | libvast/vast/fmt_integration.hpp:586-600 | a fresh JSON visitor writes exactly `Format` of the value with the selected traits |
| JsonTraits.EmptyContainers | libvast/vast/fmt_integration.hpp:428-447 | empty lists and maps print `[]` and empty records print `{}`, whatever the traits |
| JsonTraits.JoinBegins | libvast/vast/fmt_integration.hpp:433-436 | the items of a non-empty container start with the first-item indent |
| JsonTraits.JsonBodyLayout | libvast/vast/fmt_integration.hpp:567-578 | in indented JSON a non-empty body starts a new line one step deeper and ends with a new line at the container's depth |
| JsonTraits.JsonLayout | libvast/vast/fmt_integration.hpp:427-448 | a non-empty JSON list starts `[`, a newline and `(depth+1)*size` spaces, and ends with a newline, `depth*size` spaces and `]` |
| JsonTraits.FormatAvoids | libvast/vast/fmt_integration.hpp:529-553 | NDJSON writes a character that its traits never write only where a scalar or the escaper writes it |
| JsonTraits.NdjsonOneLine | libvast/vast/fmt_integration.hpp:529-553 | NDJSON output contains no newline unless a scalar or the escaper writes one |
| JsonTraits.NdjsonNoSpaces | libvast/vast/fmt_integration.hpp:544-551 | NDJSON without spaces contains no space unless a scalar or the escaper writes one |
| JsonTraits.NdjsonEntry | libvast/vast/fmt_integration.hpp:467-483 | an NDJSON map entry is `{`, the key field, a comma, a space unless spaces are removed, the value field and `}` |
| JsonTraits.JsonListExample | libvast/vast/fmt_integration.hpp:427-448 | `[null]` with a two-space indent prints as `[`, newline, two spaces, `null`, newline, `]` |
| JsonTraits.IndentExample | libvast/vast/fmt_integration.hpp:576-578 | with a two-space step, the indent is a bare newline at depth 0 and a newline and two spaces at depth 1 |
| JsonTraits.NdjsonListExample | libvast/vast/fmt_integration.hpp:544-547 | `[null, true]` prints on one line, with a space after the comma unless spaces are removed |
| JsonTraits.RecordExample | libvast/vast/fmt_integration.hpp:498-520 | the record `{a: 1}` prints as `{"a": 1}` in NDJSON |
| JsonTraits.FieldExamples | libvast/vast/fmt_integration.hpp:549-552 | without spaces, fields print as `"key":null` and `"value":false` |
| JsonTraits.QuotedVerbatim | libvast/vast/fmt_integration.hpp:109-122 | with the pass-through escaper, a string is quoted as it is |

## Left out

- The actor runtime is not modelled: mailboxes, `caf::skip` re-delivery, `request(...).then`, monitors and the down handler, stream sink setup, `send_exit` and `quit`. A skipped message leaves the state unchanged and returns `Skipped`; every send becomes a `Command` appended to `outbox`.
- The handlers that only store an actor handle are not modelled: accountant, index, sink and statistics subscriber registration. Their only effect is on actor handles, which are not part of the model.
- `report_statistics` is left out, apart from the `ReportStatistics` command the exit handler emits. So are the accountant reports, the `status` dictionary, and the runtime and start clocks. The selectivity is a floating-point ratio.
- The lookup id returned by the index is not modelled. The model keeps the partition counts of the reply only.
- The query expression and the row contents are not modelled. `tailor` and `evaluate` are parameters of the exporter's constructor, and rows are opaque handles.
- `select` appends one slice holding the selected rows in order; VAST may append one slice per run of consecutive selected rows. Row counts and order are the same either way.
- Exporter.QueryStatus: every counter is an unbounded `nat` except `requested`, which wraps at 2^64 in `extract(n)` as the 64-bit code does. VAST's counters are fixed-width, but no other counter can overflow within the ranges the model reaches.
- Exporter.Exporter.HandleBatch: a failed `tailor` calls the no-argument `shutdown`, which exits normally and does nothing for a continuous query. The error-carrying `shutdown(self, err)` (exporter.cpp:98-102) is not used here; the model follows the code.
- Exporter.Exporter.HandleHits, Exporter.Exporter.IndexDone, Exporter.Exporter.ArchiveDone and Exporter.Exporter.HandleRunReply require of their environment what the protocol guarantees. The index sends each id once and only before it reports done; it reports no more partitions than it qualified; it replies once. The archive answers only lookups it was sent. The code checks these with assertions or assumes them silently.
- Exporter.Exporter.ShipResults: the loop runs in the value method `Exporter.ShipLoop`, which the class method calls and whose results it stores. The in-place erase and overwrite of `results[0]` is a reassignment of the buffer sequence.
- Duration formatting (`llround` on doubles) is not modelled. Durations, times, numbers and addresses reach the JSON visitor as `Scalar` text written by their own formatters.
- The ASCII visitor is not modelled, nor `print_escaper`, `formatter<vast::pattern>` and the pair formatters. `Presenter` only says that presentation `a` selects it.
- The JSON escaper's body is not part of this model. The escaper is a parameter that maps each character to the text written for it. The source's escaper may consume more than one character per call.
- JsonTraits.PrintTraits: `indent_size` and `current_indent` are `nat`. A negative indentation would make fmt throw on the negative width; `Presenter` requires a non-negative one, which is all the parser produces.
- JsonTraits.JsonVisitor.FormatList, JsonTraits.JsonVisitor.FormatMap and JsonTraits.JsonVisitor.FormatRecord: the closing bracket is assigned through the output iterator without advancing it. With fmt's appending output iterator, which these formatters receive, that is the same as writing it, and it is modelled so.
- Civil.FromDays: the `unsigned char` casts of month and day never change a value because both are in range. `days` and `int` are unbounded here; the 64-bit nanosecond range from −106751 days on is covered by `Civil.Int64Days` and `Civil.FourDigitYears`.
- Civil.Timestamp: does not model the signed 64-bit overflow of `sd - time{}` and `tp - sd` for time points before 1677-09-22 (below −106751 days), which is undefined behaviour in C++; the model prints the mathematically correct 1677-09-21 date there, `Civil.DayStartOverflows` shows where the overflow begins, and `Civil.TimestampLayout` is stated only from −106751 days on.
