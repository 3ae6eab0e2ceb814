# search_s3 — a verified model of the S3 key search

`search_s3.py` lists the account's S3 buckets, optionally keeps those whose
name contains a fragment, scans every object key of every kept bucket for a
case-sensitive substring, and prints the hits in one of four forms:

- raw tab-separated lines;
- numbered seven-line blocks ("stacked");
- CSV rows, written to a file or to the console;
- a padded table.

Raw, stacked and CSV output stream each hit as it is found. The table first
collects every hit so that it can size its columns.

This project models that pipeline in Dafny, with the S3 client replaced by
plain data:

- a `Store` holds the bucket listing;
- for each bucket it holds the pages a paginator would deliver, plus the
  error, if any, that the next page request would raise;
- a bucket the store does not hold raises `NoSuchBucket` on its first page.

The modules follow the script's structure:

| module | file | what it holds |
|---|---|---|
| `Seqs` | seqs.dfy | order-preserving filter, page flattening, mapping, and the lemmas about them |
| `Text` | text.dfy | Python's `in` on strings, `str(n)`, slicing, `c * n`, left-aligned padding |
| `Storage` | storage.dfy | the store as data: objects, pages, version pages, API errors, server-side prefix filtering |
| `Selector` | selector.dfy | `get_buckets` |
| `Scanner` | scanner.dfy | the three generators, as methods with the source's nested loops |
| `Format` | format.dfy | `format_size` (exact, on reals) and `truncate_text` |
| `Render` | render.dfy | the line shapes of the four forms, the table widths, and `display_results` |
| `Driver` | driver.dfy | the script body from `buckets = get_buckets()` on, mode by mode |

Each loop of the source is a method, proved against a function that says what
it must produce. The properties the script promises are lemmas about those
functions:

- filtering keeps order and misses nothing;
- hits come in bucket order, then page order;
- the unit `format_size` picks;
- the column widths;
- where headers, counters and blank lines fall.

A run is modelled by what it leaves behind (`Driver.RunResult`):

- the console output, as a sequence of printed lines and `csv.writer` rows;
- the rows of the CSV file, when one was opened;
- whether the run completed, or was aborted by a store error or by the table's negative key width.

## Model

| member | source | states |
|---|---|---|
| Selector.GetBuckets | search_s3.py:32-39 | the selection never adds a name: it is no longer than the listing and every name in it comes from the listing |
| Selector.GetBucketsIsFilter | search_s3.py:34-39 | both branches are one order-preserving filter: when the fragment is absent or empty every name is kept, since every name contains "" |
| Selector.GetBucketsExact | search_s3.py:32-39 | the selection is exactly the subsequence of the listing, in listing order, of the names containing the fragment: every entry contains it, positions strictly increase, every matching name's position is taken; no fragment or an empty one returns the listing unchanged |
| Selector.GetBucketsCount | search_s3.py:36 | a wanted name occurs in the selection exactly as often as in the listing, an unwanted one never |
| Storage.ListObjects | search_s3.py:56-57 | a `Prefix=` listing keeps exactly the keys starting with the prefix, in listing order; modelled as the bucket's pages each filtered by the prefix (same page count and error); a missing bucket gives no pages and `NoSuchBucket` |
| Storage.ListObjectsNoPrefix | search_s3.py:42-43 | a listing without a prefix is the bucket's whole listing |
| Storage.ListObjectVersions | search_s3.py:69-71 | same page count and error as the stored version listing; a missing bucket gives no pages and `NoSuchBucket` |
| Text.ContainsIff | search_s3.py:46 | Python's `t in s` holds exactly when `t` occurs at some index of `s` |
| Text.NatToStringRoundTrip | search_s3.py:115 | `str(i)` of a counter is its canonical decimal form: the digits read back as `i`, zero is "0", and any other number starts with a non-zero digit, so no padded form such as "012" comes out |
| Text.PadRight | search_s3.py:133-140 | `f"{s:<{w}}"` starts with `s` whole, is `max(w, len(s))` long, and is padded with spaces only |
| Text.SliceTo | search_s3.py:139 | `s[:stop]` has Python's length for positive and negative stops and is a prefix of `s` |
| Scanner.ScanPage | search_s3.py:44-53 | the inner loop over one page appends exactly the hits of that page to those of the pages before |
| Scanner.ListHitsContains | search_s3.py:41-53 | yields the hits of the flattened unprefixed listing, page by page, and passes on the paginator's error, if any |
| Scanner.HitsExact | search_s3.py:44-53 | the hits are exactly the objects whose key contains the substring, once each, in listing order; each carries the bucket argument, the object's fields, and "STANDARD" for a missing storage class |
| Scanner.HitsSound | search_s3.py:46-48 | every hit's bucket is the argument and its key contains the substring |
| Scanner.HitsAcrossPages | search_s3.py:43-44 | page boundaries do not matter: the hits of two runs of pages are those of the first, then those of the second |
| Scanner.RecordPage | search_s3.py:58-65 | the inner loop over one page appends a record for every object of that page |
| Scanner.ListHitsPrefix | search_s3.py:55-65 | yields one record per object of the prefixed listing, unfiltered, in order, and passes on the error |
| Scanner.PrefixListingExact | search_s3.py:55-57 | the prefixed listing is exactly the bucket's objects whose key starts with the prefix, in order; a missing bucket yields nothing and `NoSuchBucket` |
| Scanner.ListVersions | search_s3.py:67-75 | yields each page's Versions, then that page's DeleteMarkers, page by page; `NoSuchBucket` is swallowed, so a missing bucket yields nothing and no error; any other error is passed on |
| Scanner.VersionsOfMembers | search_s3.py:71-73 | an entry is yielded exactly when some page lists it as a version or a delete marker |
| Scanner.VersionsOfAppend | search_s3.py:71-73 | page order is kept: the entries of two runs of pages are those of the first, then of the second |
| Format.UnitFrom | search_s3.py:79-83 | the unit the loop stops at is the first from `i` on whose next power of 1024 exceeds the size, PB at the latest |
| Format.UnitIndexIff | search_s3.py:79-83 | unit `k` is chosen exactly when the size lies in `[1024^k, 1024^(k+1))`, with no lower bound for B and no upper bound for PB |
| Format.RoundHalfEven | search_s3.py:81 | `.1f` rounding: within one half of the exact value, ties to the even neighbour, never negative for a non-negative value |
| Format.OneDecimalWhole | search_s3.py:81 | a whole number is printed with ".0" |
| Format.ScaledIsQuotient | search_s3.py:82 | after `k` divisions by 1024 the value is exactly `size / 1024^k` |
| Format.ScaledBelow | search_s3.py:80-82 | the value after `k` divisions is below 1024 exactly when the size is below `1024^(k+1)` |
| Format.StopAt | search_s3.py:79-83 | where the loop returns, at unit `i`, its text is the size's text |
| Format.FormatSize | search_s3.py:77-83 | the loop of divisions returns the size's text: `size / 1024^k` to one decimal place, then unit `k` |
| Format.SizeTextQuotient | search_s3.py:77-83 | closed form: the text is `size / 1024^k` to one decimal, then the unit `k` that `UnitIndexIff` pins down |
| Format.SizeTextBytes | search_s3.py:79-81 | below 1024 the text is `"<size>.0B"` |
| Format.SizeTextWholeUnits | search_s3.py:79-83 | `n` whole units (1 to 1023, any `n` for PB) print as `"<n>.0<unit>"` |
| Format.SizeTextPetabytes | search_s3.py:83 | every size from `1024^5` on is printed in PB |
| Format.SizeTextStartsWithDigit | search_s3.py:81 | every size text starts with a decimal digit |
| Format.SizeTextZero | search_s3.py:77-81 | 0 bytes prints as "0.0B" |
| Format.SizeTextLargestInBytes | search_s3.py:77-81 | 1023 bytes prints as "1023.0B" |
| Format.SizeTextOneKilobyte | search_s3.py:77-83 | 1024 bytes prints as "1.0KB" |
| Format.SizeTextTwoKilobytes | search_s3.py:77-83 | 2048 bytes prints as "2.0KB" |
| Format.SizeTextOneMegabyte | search_s3.py:77-83 | 1048576 bytes prints as "1.0MB" |
| Format.SizeTextOneTerabyte | search_s3.py:77-83 | 1099511627776 bytes prints as "1.0TB" |
| Format.SizeTextRoundsUp | search_s3.py:77-83 | the unit is chosen before rounding: 1048575 bytes prints as "1024.0KB", not "1.0MB" |
| Format.SizeTextHalfToEven | search_s3.py:77-83 | an exact half goes to the even digit: 1280 bytes prints as "1.2KB" |
| Format.TruncateText | search_s3.py:85-89 | text that fits is returned unchanged; otherwise, for `max_length >= 3`, the result is `max_length` long, starts with `text[:max_length-3]` and ends with "..." |
| Render.CsvRowIsNotHeader | search_s3.py:172-176 | no hit's CSV row equals the header row |
| Render.RawLineIsNotHeader | search_s3.py:146-150 | no hit's raw line equals the raw header line, even when a key holds tabs: the size field starts with a digit and the header holds none |
| Render.StackedLinesSnoc | search_s3.py:114-121 | one more record adds its seven-line block, numbered after all earlier ones |
| Render.StackedLinesShape | search_s3.py:114-121 | stacked output is seven lines per record; block `i` is record `i`'s block numbered `i + 1`, opens with "=== Object N ===" and closes with a blank line |
| Render.StackedBlockLines | search_s3.py:115-121 | line `7i` is "=== Object i+1 ===", line `7i+1` names record `i`'s bucket, line `7i+6` is blank |
| Render.LongestLength | search_s3.py:129-130 | `len(max(names, key=len))`: no name is longer, and some name has that length |
| Render.BucketColumnWidth | search_s3.py:129 | the bucket width is the longest bucket name clamped to [20, 50] |
| Render.KeyColumnWidth | search_s3.py:130 | the key width never exceeds `term_width - bucket_width - 35`; it lies in [30, bound] when the bound is at least 30, and equals the bound, possibly negative, below that |
| Render.TableShape | search_s3.py:126-140 | the bucket width lies in [20, 50] and depends on bucket names alone; the table fails exactly when the terminal is narrower than the bucket width plus 35; otherwise it is a header, `term_width` dashes, and one row per record in order |
| Render.TableRowKeepsValues | search_s3.py:140 | no row cuts a value: the row starts with the bucket name whole, and the whole key follows after the bucket column and one space |
| Render.TableRowKeepsSizeAndClass | search_s3.py:140 | nor are the size text and the storage class cut: each appears whole one space after the padded column before it, the LastModified column being always 25 wide |
| Render.TableRowModified | search_s3.py:139-140 | a row shows the first 25 characters of LastModified, or all of a shorter one |
| Render.PrintRaw | search_s3.py:104-110 | the raw branch prints the header, then one tab-separated line per record |
| Render.PrintBlock | search_s3.py:115-121 | the seven prints for one object are that object's stacked block |
| Render.PrintStacked | search_s3.py:112-122 | the stacked branch prints the numbered blocks of the records |
| Render.PrintTable | search_s3.py:132-140 | the table loop prints the header, the dash rule, then each record's row in order |
| Render.DisplayResults | search_s3.py:98-140 | an empty list prints "No results found." alone; then raw, then stacked when asked; otherwise the table, and nothing at all when the key width is negative |
| Driver.SelectMode | search_s3.py:144-195 | the first set flag among raw, stacked and csv picks the mode; the table is the default |
| Driver.CollectFrom | search_s3.py:147-148 | every collected hit is a hit of one of the buckets' scans |
| Driver.CollectStops | search_s3.py:147-148 | once a bucket's scan has raised, later buckets are never scanned |
| Driver.CollectSnoc | search_s3.py:147-148 | one more bucket appends its hits, unless an earlier bucket raised |
| Driver.CollectAppend | search_s3.py:147-148 | buckets are scanned one after another: collecting two runs of buckets is collecting the first, then, unless it raised, the second |
| Driver.CollectComplete | search_s3.py:147-148 | a run with no error collects every hit of every bucket |
| Driver.CollectInOrder | search_s3.py:189-192 | a run with no error delivers the hits bucket by bucket in selection order, each bucket's hits in scan order |
| Driver.ScanSound | search_s3.py:142-148 | every hit comes from a selected bucket and its key contains the term |
| Driver.ScanComplete | search_s3.py:142-148 | a run with no error misses nothing: every matching object of every selected bucket is among the hits |
| Driver.RawHeaderFirst | search_s3.py:144-150 | raw mode prints the header first, even with no hits, then line `i + 1` for hit `i`; no data line equals the header, since its size field starts with a digit and the header has none |
| Driver.CsvHeaderOnce | search_s3.py:166-185 | CSV mode writes the header row once, first, even with no hits, then a row per hit in order, none equal to the header; with a file name the rows go to the file, else to the console |
| Driver.CsvSavedMessage | search_s3.py:170-177 | "Results saved to <file>" is printed exactly when every bucket was scanned without error |
| Driver.StackedNumbering | search_s3.py:152-164 | stacked mode numbers hits across buckets with one counter: block `i` opens "=== Object i+1 ===", names its bucket and ends blank; no hits print nothing |
| Driver.TableWaitsForScan | search_s3.py:187-195 | table mode prints nothing when a scan raised; with no hits it prints "No results found." alone; else it aborts exactly when the terminal is narrower than the bucket width plus 35, and otherwise prints two lines more than there are hits |
| Driver.RunStatus | search_s3.py:142-195 | a store error ends every mode with that error; without one, only the table can abort |
| Driver.PrintRawHits | search_s3.py:148-150 | the inner raw loop appends one tab-separated line per hit of one bucket |
| Driver.StreamRawLines | search_s3.py:144-150 | the raw loop prints the header, then every bucket's hit lines in turn, up to the error that stopped it |
| Driver.RunRaw | search_s3.py:144-150 | a raw run prints the header and a line per collected hit, and ends as the scan ended |
| Driver.PrintStackedHits | search_s3.py:156-164 | the inner stacked loop appends one block per hit, numbered on from the running `object_count` |
| Driver.StreamStackedLines | search_s3.py:152-164 | the stacked loop prints the blocks of all hits, numbered across buckets, up to the error that stopped it |
| Driver.RunStacked | search_s3.py:152-164 | a stacked run prints the numbered blocks of the collected hits and ends as the scan ended |
| Driver.WriteCsvHits | search_s3.py:174-176 | the inner CSV loop writes the five-field row of each hit of one bucket |
| Driver.StreamCsvRows | search_s3.py:166-185 | the CSV loop writes the header row, then every bucket's hit rows in turn, up to the error that stopped it |
| Driver.RunCsv | search_s3.py:166-185 | the rows go to the named file, followed by the saved message only on success, or to the console when no name is given |
| Driver.CollectHits | search_s3.py:189-192 | `all_results` ends as every hit of every bucket in order, up to the first error |
| Driver.RunTable | search_s3.py:187-195 | the table run displays the collected hits with both flags off, and prints nothing if the scan raised |
| Driver.Run | search_s3.py:142-195 | the script body yields exactly the selected buckets' scan, presented in the selected mode |
| Driver.OneObjectScan | search_s3.py:41-53 | a bucket with one object yields that object's record exactly when its key contains the term |
| Driver.TwoBucketRun | search_s3.py:142-148 | two one-object buckets, of which only the first matches, collect exactly the first object's record |
| Driver.ExampleKeys | search_s3.py:46 | "2024/app.log" contains "log"; "img/a.png" does not |
| Driver.ExampleLine | search_s3.py:150 | the raw line of a 2048-byte object with no storage class reads "app-logs\t2024/app.log\t2.0KB\t2024-01-01T00:00:00+00:00\tSTANDARD" |
| Driver.RawOneHit | search_s3.py:146-150 | raw mode with one hit and no error prints the header and that hit's line, and completes |
| Driver.RawExample | search_s3.py:142-150 | the worked run prints the header and the single line for "2024/app.log", and completes |

## Left out

- Argument parsing and the module-level globals (search_s3.py:5-28) are not modelled. The term, bucket fragment, mode flags and CSV file name are parameters of `Driver.Run`.
- The boto3 session, the client's retry configuration and the paginator mechanics (search_s3.py:29-30, 42-43, 56-57, 69) are not modelled. A listing is the sequence of pages delivered, plus the error, if any, raised when the next page was requested.
- Storage.ListObjects: the page-by-page prefix filter is a modelling choice. S3 paginates the already restricted listing, so its page boundaries, and the page after which an error falls, may differ from the model's. Only the joined sequence of keys (`Scanner.PrefixListingExact`) is claimed to agree.
- A failing `list_buckets` call (search_s3.py:33) is not modelled: the bucket listing is an input.
- `datetime.isoformat()` is not modelled: LastModified is an opaque string.
- `get_terminal_width` (search_s3.py:91-96) is not modelled. The terminal width is a parameter, used as given. In particular it is never clamped to at least 30, because the code does not clamp it; a key width below 30, or negative, follows.
- `format_size` works on exact rationals rather than floats. Division by 1024 is exact in binary floating point, so the model agrees with the script for every size below 2^53. Beyond 2^53, the rounding of the conversion to float is not modelled.
- The quoting rules and line endings of `csv.writer`, the file's utf-8 encoding, and failures to open the file (search_s3.py:170-185) are not modelled. A CSV row is its five fields.
- Timing is not modelled. The model records what is printed and in which order, not how printing interleaves with the page fetches.
- `list_hits_prefix` and `list_versions` are defined but never called by the script body. They are modelled on their own, with no driver properties.
- The raw and stacked branches of `display_results` (search_s3.py:104-122) are never reached from the script body, which passes both flags off. They are modelled in `Render.DisplayResults` and carry no driver properties.
- Storage.ListObjectVersions: its contract states the page count and the error only. The per-page prefix filter on versions and delete markers is given by its body.
- Format.TruncateText: for `max_length` below 3 the contract states only that the result is longer than `max_length` and ends with "...". It does not state which characters Python's negative slice keeps.
- Seqs.Map: its contract states only the length. Element-wise facts come from `Seqs.MapAt`, `Seqs.MapAppend` and `Seqs.MapSingle`.
