# SKU / Origin-URL audit of product CSV files

Two scripts read product CSV files and report how many rows carry a SKU, an
origin URL, both, or a SKU without a URL:

- `check_csv_urls.py` runs `analyze_csv` on three files. Each call prints five
  counter lines and a listing block, then returns a four-field stats record.
  The script adds the three records field by field into grand totals.
- `check_missing_urls.py` runs the same per-row loop on one file. It prints
  the same five counter lines and then lists every SKU that has no URL.

At the heart of both is one fold over the rows. Each row maps column names to
cell text. For each row the fold reads `SKU` and `Origin URL`; an absent
column reads as `""`. It strips surrounding whitespace the way Python's
`str.strip()` does. It then bumps `total`, `with_skus`, `with_urls` and
`with_both`, and appends the SKU to `missing_url_skus` when the row has a SKU
but no URL.

The Dafny modules follow that structure:

- `Strings` (`strings.dfy`): Python's `str.isspace()` character set and
  `strip()`.
- `RowAudit` (`audit.dfy`): the row type and the two column lookups. It holds
  the loop state `Stats`, one loop iteration `Step`, and the fold
  `AuditFrom`/`Audit`. It adds head-first reference definitions (`Count`,
  `MissingSkus`, `MissingPositions`) and the lemmas that tie the fold to
  them. `AuditRows` is the imperative loop with its five mutable variables.
- `Listing` (`listing.dfy`): the listing block as a value
  (`NoList | Enumerated(lines) | TooMany(count)`). It holds
  `enumerate(..., 1)` and the two listing rules.
- `CsvUrls` (`csv_urls.dfy`): `analyze_csv`, its returned record `Totals`,
  and the field-wise grand totals.
- `MissingUrls` (`missing_urls.dfy`): the single-file script, and its
  agreement with `analyze_csv`.

Two facts about the code shape the model:

- The column names `"SKU"` and `"Origin URL"` are fixed literals
  (check_csv_urls.py:23-24, check_missing_urls.py:19-20).
- The summary block (check_csv_urls.py:70-74) prints four totals. It prints
  no "missing URL" count and no list.

## Model

| member | source | states |
|---|---|---|
| Strings.StripSpec | check_csv_urls.py:23-24 | `strip()` keeps the infix left after cutting a whitespace-only prefix and suffix. That infix neither starts nor ends with whitespace, and it is empty exactly when the cell is whitespace only |
| Strings.StripUnique | check_csv_urls.py:23-24 | `strip()` is fully determined: for any text made of a whitespace run, a middle with no whitespace at either end, and a whitespace run, the result is that middle |
| Strings.TrimStartSpec | check_csv_urls.py:23-24 | The leading half of `strip()` removes a whitespace-only prefix, all of it |
| Strings.TrimEndSpec | check_csv_urls.py:23-24 | The trailing half of `strip()` removes a whitespace-only suffix, all of it |
| RowAudit.BlankSkuIsAbsent | check_csv_urls.py:23 | A row with no `SKU` column has no SKU. When the column is present, the row has a SKU iff the cell is not whitespace only |
| RowAudit.BlankUrlIsAbsent | check_csv_urls.py:24 | The same rule for the `Origin URL` column |
| RowAudit.Step | check_csv_urls.py:21-36 | One loop iteration adds one to `total` and keeps the counting invariants: `with_both <= with_skus <= total`, `with_both <= with_urls <= total`, `len(missing) + with_both == with_skus`, and every listed SKU is non-empty |
| RowAudit.AuditFrom | check_csv_urls.py:20-36 | Consuming any rows from a consistent state adds their number to `total` and keeps the counting invariants |
| RowAudit.Audit | check_csv_urls.py:13-36 | After the loop, `total` is the number of rows and the counting invariants hold |
| RowAudit.AuditSnoc | check_csv_urls.py:20-36 | The rows are consumed in order: auditing `rows + [row]` is auditing `rows` and then one iteration on `row`. So the invariants hold after every prefix |
| RowAudit.AuditIsReference | check_csv_urls.py:20-36 | Each counter equals the number of rows with that property. `missing_url_skus` equals the stripped SKUs of the SKU-without-URL rows, filtered in row order |
| RowAudit.MissingPositions | check_csv_urls.py:35-36 | The SKU-without-URL rows, as strictly ascending row positions: every listed position is such a row, and every such row is listed |
| RowAudit.MissingInInputOrder | check_csv_urls.py:35-36 | Entry `k` of `missing_url_skus` is the SKU of the `k`-th SKU-without-URL row. So the list holds exactly those rows, each once, in input order |
| RowAudit.AllMissingLength | check_csv_urls.py:35-36 | When every row has a SKU and no URL, every row contributes one entry |
| RowAudit.AuditRows | check_csv_urls.py:12-36 | The imperative loop with five mutable variables; its loop invariants keep `total_rows == i` and the counting invariants on its own variables after every row. It returns `total = len(rows)`, the reference counts and the reference filter |
| Listing.Enumerate | check_csv_urls.py:47-48 | `enumerate(skus, start)` pairs entry `i` with number `start + i` and keeps every SKU in order |
| Listing.EnumerateRoundTrip | check_csv_urls.py:47-48 | Dropping the numbers from the enumerated lines gives back the missing list. The numbers run 1..n |
| Listing.ThresholdListing | check_csv_urls.py:45-50 | No block iff nothing is missing. A numbered list iff 1 to 9 are missing, showing exactly the missing SKUs numbered 1..n. Only the count iff 10 or more are missing |
| Listing.FullListing | check_missing_urls.py:41-44 | No block iff nothing is missing. Otherwise every missing SKU is listed, numbered 1..n, with no size threshold |
| Listing.ThresholdVersusFull | check_csv_urls.py:45-50 | The two rules agree below ten. From ten on, the multi-file rule prints only the count and the single-file rule still enumerates everything |
| CsvUrls.TotalsOf | check_csv_urls.py:52-57 | The returned record is ordered (`0 <= with_both <= with_skus <= total`, `with_both <= with_urls <= total`) whenever the loop state is consistent |
| CsvUrls.AnalyzeCsv | check_csv_urls.py:4-57 | The returned record counts the rows with SKU, URL and both. It is ordered. The listing follows the three-way rule on `with_skus - with_both` and shows exactly the missing SKUs |
| CsvUrls.AnalyzeCsvTotals | check_csv_urls.py:52-57 | The returned record is exactly (number of rows, rows with a SKU, rows with a URL, rows with both) |
| CsvUrls.EmptyFile | check_csv_urls.py:12-17 | A file with no data rows gives all-zero counters and no listing block |
| CsvUrls.AllMissingIsTooMany | check_csv_urls.py:49-50 | Ten or more rows, all with a SKU and no URL, are reported only by their count |
| CsvUrls.SumOrdered | check_csv_urls.py:65-68 | Adding ordered records field by field gives an ordered record |
| CsvUrls.GrandTotal | check_csv_urls.py:65-68 | The three-file grand total keeps `with_both <= with_skus <= total` and `with_both <= with_urls <= total` |
| CsvUrls.GrandTotalIsSum | check_csv_urls.py:65-68 | The three-file grand total is the general field-wise `Sum` of the three records |
| CsvUrls.SumAppend | check_csv_urls.py:65-68 | Summing two groups of files separately and adding the results gives the sum of all of them |
| CsvUrls.SumPermutation | check_csv_urls.py:65-68 | Summation does not depend on file order: any rearrangement of the records has the same grand total |
| CsvUrls.GrandTotalIsAuditOfAllRows | check_csv_urls.py:60-68 | Adding the three files' records gives exactly the record of auditing all their rows as one file |
| MissingUrls.CheckMissingUrls | check_missing_urls.py:9-44 | The single-file loop counts all rows and keeps the counting invariants. Its missing list is the reference filter in row order. Its listing is empty iff nothing is missing and otherwise enumerates every missing SKU, numbered 1..n |
| MissingUrls.SameAsAnalyzeCsv | check_missing_urls.py:16-32 | On the same rows, the single-file loop and `analyze_csv` compute the same four counters. Their listings agree below ten; from ten on, `analyze_csv` only counts what this script still enumerates |

## Left out

- File opening, UTF-8 decoding and the hardcoded paths are left out as I/O;
  they can only fail with a runtime exception. The model takes each file's
  rows as a given sequence.
- `csv.DictReader` parsing (quoting, dialects, the header row) is left out
  because it is a foreign library. Rows are taken as `map<string, string>`.
  DictReader fills the missing cells of a short row with `None`. If that
  happens in the `SKU` or `Origin URL` column, `.strip()` raises
  `AttributeError` and the script stops. The model has no `None` cells, so
  this crash is not modelled. Extra cells of a long row land under the key
  `None`, which neither lookup reads.
- The exact `print` text is replaced by returned values.
  - In `analyze_csv`, the first four counter lines are the fields of
    `Totals`. The fifth, `len(missing_url_skus)`, is `|Stats.missing|`.
    `Consistent` makes it equal to `withSkus - withBoth`.
  - In the single-file script, the five lines are the four counters of
    `Stats` and `|Stats.missing|`.
  - The listing block is a `Listing` value.
- Strings.TrimStart, Strings.TrimEnd and Strings.Strip: each function's own
  contract states only the length bound. Their full behaviour is proved in
  `TrimStartSpec`, `TrimEndSpec`, `StripSpec` and `StripUnique`. This keeps
  the facts about the whitespace set out of every proof that only counts
  rows.
- The whitespace set is Python's `str.isspace()` list written out
  explicitly. It is not derived from a Unicode database.
