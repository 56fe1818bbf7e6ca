# Shodan Astra scan: a Dafny model of its core

The program runs a fixed list of Shodan host searches, pages through the
results of each, reduces located hosts to map records, and writes JSON
reports with summary statistics. This project models the three parts of it
that are logic rather than I/O, and proves properties of them:

- **The search client** (`pkg/shodan/client.go`). `Shodan.SearchShodan` is the
  paging loop of `SearchShodan`. The HTTP exchange for one page is a *page
  oracle*: a function `nat -> Page` that gives, for each page number, either
  the decoded page (`Fetched(Response(matches, total))`) or the reason it
  failed (`Transport`, `Status(code, body)`, `ReadBody`, `Parse`). The
  method's loop starts at page 1 and keeps the total from page 1. It stops
  after a page with fewer than 100 matches, or once the gathered matches
  reach that total. A failed page fails the whole search. The loop's
  termination measure is the pair (1 before page 1 / 0 after it,
  `total - |gathered|`). The result is specified against an independent
  description of a run: `Collected` (the pages' matches concatenated in
  page order), `Continues` (page k was fetched and lets the loop go on) and
  `LastRequested`.
- **The geo converter** (`pkg/geomapper/converter.go`). `ConvertToGeoData`
  mirrors the Go loop that appends one record per located match. It is
  proved equal to a reference "filter, then project". Coordinates are
  `real`, and they are only ever compared with zero.
- **The report helpers** (`pkg/report/report.go`).
  - `SanitizeFilename` is the same chain of `strings.ReplaceAll` calls
    (`Text.ReplaceAll` has Go's leftmost, non-overlapping semantics for a
    non-empty pattern, which is the only kind the chain passes),
    followed by the cut to 50 bytes.
  - `GetTopN` is a method. It picks map keys with `:|`, which stands for
    Go's unspecified map iteration order. Note that it keeps *some* n
    entries, not the n with the largest counts; the model does the same.
  - `ConvertIntMap` renders keys with `Numerals.Decimal` (Go's `%d`).
  - `CreateSummary` builds its tables with `Counting.Tally`. `Tally` is the
    `count[x]++` loop, and its contract gives each key's count as the number
    of times the key occurs in the input.

The Go code fills its four tables in one loop over the matches. The model
builds each table with its own fold over the matching field sequence. The
tables do not interact, so the two give the same tables.

Behaviours of the code worth noting, all of which the model keeps:

- Colons are deleted, not turned into underscores (`report.go:15`).
- The cut to 50 is by bytes. The model uses one character per byte.
- The search requests at least one page even when the total is 0 or less.
- The last page may take the gathered count past the total. Only pages
  before the last are guaranteed to leave it below the total.

## Model

| member | source | states |
|---|---|---|
| `Shodan.SearchShodan` | pkg/shodan/client.go:48-120 | Pages are requested as 1, 2, 3, … with no gaps. Every page before the last was fetched, had at least 100 matches and left the gathered count below page 1's total; the last page did not. A failed last page gives `Err` carrying that page number and cause, with no partial result. Otherwise the result is `Ok` with the concatenation of all fetched pages' matches and page 1's total, even when fewer matches than the total were gathered. At most max(1, ceil(total/100)) pages are requested. |
| `Shodan.ContinuingPagesFill` | pkg/shodan/client.go:98-109 | If pages 1..k all let the loop continue, at least 100·k matches have been gathered. |
| `Shodan.PagesBound` | pkg/shodan/client.go:56-112 | If every page before page k let the loop continue, then k ≤ max(1, ceil(total/100)), where total is the figure reported on page 1. |
| `Shodan.FullPageReachingTotalIsLast` | pkg/shodan/client.go:104-109 | A page with exactly 100 matches that brings the gathered count to the total is the last page requested, and no other page can be. |
| `Shodan.OnlyFirstTotalCounts` | pkg/shodan/client.go:91-95 | Two servers that differ only in the totals reported on later pages gather the same matches and stop at the same page: only page 1's total is used. |
| `GeoMapper.ConvertToGeoData` | pkg/geomapper/converter.go:26-52 | The output is no longer than the input, and no output record has latitude and longitude both zero. |
| `GeoMapper.ConvertIsFilterThenProject` | pkg/geomapper/converter.go:29-49 | The conversion equals "keep the matches with a non-zero coordinate, then build one record per match", in the original order. |
| `GeoMapper.ConvertDistributes` | pkg/geomapper/converter.go:29-49 | Converting `a + b` gives the conversion of `a` followed by the conversion of `b`. |
| `GeoMapper.UnlocatedContributesNothing` | pkg/geomapper/converter.go:31 | Removing a match whose coordinates are both zero leaves the output unchanged, so such a match never yields a record. |
| `GeoMapper.CopiesFields` | pkg/geomapper/converter.go:37-46 | Every record comes from a located input match. Its IP, country, city, coordinates, port and timestamp are copied unchanged, and its info string is built from that match. |
| `GeoMapper.LocatedSound` | pkg/geomapper/converter.go:31 | The location filter keeps only located matches from its input and never grows it. |
| `GeoMapper.SshInfo` | pkg/geomapper/converter.go:32-35 | The info string starts with "Product: p, Version: v". It is longer than that exactly when an SSH record is present, and then the rest is ", Type: t". |
| `Text.ReplaceAll` | pkg/report/report.go:13-19 | Every character of `strings.ReplaceAll`'s result comes from the input or from the replacement text. |
| `Text.ReplaceAllIdentity` | pkg/report/report.go:13-19 | Replacing a pattern that does not occur returns the input unchanged. |
| `Text.ReplaceCharRemoves` | pkg/report/report.go:13-18 | Replacing a character by a text without it removes every occurrence of that character. |
| `Text.ReplaceOrRemoves` | pkg/report/report.go:19 | After replacing "OR" by "or", no "OR" remains, not even one formed around a replaced occurrence. |
| `Report.Substitute` | pkg/report/report.go:13-19 | The seven replacements in order. Every character of the result comes from the query or from one of the replacement texts `_`, `plus` and `or`. |
| `Report.SubstituteSafe` | pkg/report/report.go:13-19 | After the replacement chain, no quote, space, colon, slash, backslash or plus is left, and no "OR". |
| `Report.SanitizeFilename` | pkg/report/report.go:12-24 | The sanitized name has at most 50 bytes. It holds no quote, space, colon, slash, backslash or plus, and contains no "OR". |
| `Report.SanitizeIdempotent` | pkg/report/report.go:12-24 | Sanitizing a sanitized name returns it unchanged. |
| `Report.GetTopN` | pkg/report/report.go:65-79 | A table with at most n entries comes back unchanged. Otherwise the result is a sub-table of the input (same values), with n entries for n ≥ 0 and none for n < 0. |
| `Report.ConvertIntMap` | pkg/report/report.go:81-87 | The string-keyed table has as many entries as the input. The rendering of each key maps to that key's value, and every new key parses back to an old key and holds that key's value. |
| `Report.RenderedKeysCanonical` | pkg/report/report.go:83-85 | A string-keyed table that is as large as the integer table and holds the rendering of every key has no other keys. Each of its keys is the canonical decimal form of the integer it parses to, so no two strings stand for the same port. |
| `Numerals.Decimal` | pkg/report/report.go:84 | The `%d` rendering of an integer is non-empty and starts with a minus sign exactly when the integer is negative. |
| `Numerals.DecimalRoundTrip` | pkg/report/report.go:84 | Parsing the `%d` rendering of an integer gives back the integer. |
| `Numerals.DecimalInjective` | pkg/report/report.go:84 | Distinct integers have distinct `%d` renderings, so no two port keys collide. |
| `Numerals.DecimalImageSize` | pkg/report/report.go:83-85 | Rendering a set of integers gives as many distinct strings as there are integers. |
| `Counting.Tally` | pkg/report/report.go:43-50 | A `count[x]++` table has exactly the elements of the sequence as keys, and each key's count is its number of occurrences. |
| `Counting.OccurrencesSnoc` | pkg/report/report.go:43-50 | Appending one element adds one occurrence of that element and none of any other. |
| `Counting.TallySum` | pkg/report/report.go:43-50 | The counts of a frequency table sum to the length of the counted sequence. |
| `Counting.DistinctSize` | pkg/report/report.go:44-57 | A sequence has at most as many distinct elements as elements, which bounds the unique-IP and country counts. |
| `Counting.SumOfSubmap` | pkg/report/report.go:58-60 | Dropping entries with non-negative values cannot raise a table's sum. |
| `Counting.SumRemove` | pkg/report/report.go:58 | A table's sum is one entry's value plus the sum of the rest, for whichever entry is taken out. |
| `Report.Products` | pkg/report/report.go:47-48 | The products that are counted: no entry is empty, and there are at most as many as matches. |
| `Report.CountryCountsSum` | pkg/report/report.go:43-45 | The country counts sum to the number of matches. |
| `Report.PortCountsSum` | pkg/report/report.go:43-46 | The port counts sum to the number of matches. |
| `Report.ProductCounts` | pkg/report/report.go:43-49 | The product counts sum to the number of matches with a non-empty product. |
| `Report.CreateSummary` | pkg/report/report.go:38-63 | The query, match and geo-record counts are the lengths of their inputs. The unique-IP and country counts are distinct-value counts and at most the match count. The top-country table is a sub-table of the country counts with min(countries, 10) entries; it holds every country when there are at most 10, and its values sum to at most the match count. The port table has min(distinct ports, 10) entries; each key is the canonical `%d` rendering of a port and holds that port's count, so no port appears under two keys; with at most 10 distinct ports every port's `%d` rendering is a key holding that port's count. The product table is a sub-table of the product counts with min(distinct products, 10) entries, and it holds every product when there are at most 10. No product entry is empty, and the product values sum to at most the number of matches with a product. |

## Left out

- Text.ReplaceAll: requires a non-empty pattern. Go's `strings.ReplaceAll` also accepts an empty one and then inserts the replacement around every rune. Every call in `pkg/report/report.go:13-19` passes a non-empty literal, so the sanitiser loses nothing.
- `SaveJSON` (`pkg/report/report.go:26-36`): JSON encoding and file writes belong to the library and the filesystem.
- `main.go`: environment lookup, directory creation, file naming, sleeps, printing and exit codes are I/O. When saving a query's file fails, the `continue` at `main.go:72-75` skips the appends at `main.go:78-80`, so that query's matches are missing from the combined output. This orchestration is not part of this model.
- HTTP in `SearchShodan` is replaced by the page oracle: the client, its 30 s timeout, URL building, body reading, the 1 s pause between pages and the log lines. The oracle's answer for a page already tells which failure happened, so the status check and the JSON decoding are not modelled separately.
- Floating point: coordinates are `real`. The behaviour of -0.0 and NaN in the zero test is not modelled.
- String encoding: strings are sequences of characters, one per byte. The byte-based cut at `pkg/report/report.go:20-22` can split a multi-byte UTF-8 character; that is not modelled.
- Integer width: Go's 64-bit `int` wrap-around in counters, totals and page numbers is not modelled. Integers are unbounded.
- Map iteration order in `GetTopN`: the model picks keys nondeterministically and states only the size and sub-table properties. It adds no tie-break rule.
- The summary's JSON shape: `Summary` is a record of the computed values, not a `map[string]interface{}`.
- The timestamp is an input string; reading the clock is left to the caller.
