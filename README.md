# SEC filing scraper — a verified model of its core

The scraper reads a list of SEC company identifiers (CIKs), fetches each
company's submission record from the SEC, builds one row per recent filing,
drops insider and ownership forms, adds a link to each filing's index page,
and writes all rows to a spreadsheet. It then selects the filings made since
the most recent Friday at 00:01 and counts them by form type. For the whole
run, standard output goes through a logger that copies every message to the
console and to a log file, and the logger is closed however the run ends.

This project models that core in Dafny:

- `CikLoader` (`ciks.dfy`): trimming lines the way Python's `str.strip`
  does, dropping blank lines, `str.zfill(10)` including its sign handling,
  and `lstrip('0')` for the URL.
- `Cutoff` (`cutoff.dfy`): `get_previous_friday` over day numbers, where
  day 0 is 1970-01-01, a Thursday. It also holds the proleptic Gregorian
  calendar that gives those day numbers, and the reading of "YYYY-MM-DD"
  filing dates as midnight of their day, or as NaT ("not a time") for an
  empty date.
- `RunLog` (`runlog.dfy`): the `Logger` class, with its console and log
  file as ghost sequences. Its `write`, `flush` and `close` are given as
  transition functions on the observable state, and the lemmas about
  sequences of operations are stated over those functions.
- `Filings` (`filings.dfy`): how `fetch_sec_data` classifies an answer by
  status code, the per-CIK table built from the parallel arrays of
  `filings.recent`, the excluded-form filter and the filing URL.
- `ValueCounts` (`counts.dfy`): `value_counts()` on the Form column. It
  tallies forms in order of first appearance, then sorts the tally by
  decreasing count with a stable insertion sort.
- `Pipeline` (`pipeline.dfy`): the loop of `main` over the CIKs. The loop
  is the method `CollectFilings`, proved against the function `Collect`.
  The module also holds the routing of each CIK to the successful list,
  the failed list or neither; the concatenation of the per-CIK tables; the
  date parsing; the new-filings selection; and `Run`, the whole of `main`.
  `Run` creates the logger, runs the loop, hands the loop's results to
  `Summarize` (what `main` does after the loop) and closes the logger on
  every way out.
- `Seqs` and `Decimal` (`seqs.dfy`, `decimal.dfy`): order-preserving
  filtering and decimal digit strings, shared by the modules above.

Network answers are an oracle `fetch(i, cik)`: the response to the request
for the i-th CIK of the list. The current Eastern time is the parameter
`now`, a day number and a time of day. The CIK file is a parameter too: its
lines, or `None` when it cannot be read.

Behaviour of the code that is easy to miss:

- Not every kept row has a non-empty form code. The filter only removes the
  ten listed codes, so an empty form string is kept.
- `zfill(10)` yields exactly ten characters only for entries of at most ten
  characters. Longer entries pass through unchanged, and an entry with a
  leading sign keeps the sign in front of the zeros.
- A 200 answer whose body is not a JSON object raises, which ends the run.
  It is not recorded as a failed CIK and the run does not go on
  (`BodyNotJson`).
- A missing `filingDate`, `form` or `primaryDocument` array raises and ends
  the run, and so do arrays of different lengths.
- An empty filing date does not stop the run. pandas reads it (and the
  strings "NaT", "nat", "NAT", "nan", "NaN", "NAN") as NaT; the row stays
  in the spreadsheet, and it is never a new filing, because NaT compared
  with the cutoff is false. Any other date that is not a valid
  "YYYY-MM-DD" date raises and ends the run (`BadFilingDate`).
- A run that collects no rows at all does not finish. The empty
  `pd.DataFrame()` has no 'Filing Date' column, so the date conversion
  raises (`MissingColumn("Filing Date")`). The logger is still closed.

## Model

| member | source | states |
|---|---|---|
| CikLoader.Strip | SEC_Filing_Scraper.py:52 | `line.strip()`: the result is empty exactly when the line is all whitespace; otherwise it neither starts nor ends with whitespace, and it is the contiguous middle of the line with only whitespace on either side |
| CikLoader.ZFill | SEC_Filing_Scraper.py:55 | `zfill(width)`: the length is max(width, len); the zero padding comes before the entry, or after its leading sign; an entry at least `width` long is unchanged |
| CikLoader.LoadCiksSpec | SEC_Filing_Scraper.py:52-55 | there is one CIK per line that is non-blank after trimming, in file order with duplicates kept; the k-th CIK is the k-th such line, trimmed and zero-filled to ten |
| CikLoader.LoadedCikShape | SEC_Filing_Scraper.py:52-55 | every loaded CIK has at least ten characters and no surrounding whitespace |
| CikLoader.LoadCiksIdempotent | SEC_Filing_Scraper.py:52-55 | loading a file made of loaded CIKs gives back the same list |
| CikLoader.ZFillDigits | SEC_Filing_Scraper.py:55 | padding a digit string keeps it all digits and keeps its numeric value; one of at most ten digits becomes exactly ten characters, so nothing is truncated |
| CikLoader.StripLeadingZeros | SEC_Filing_Scraper.py:192 | `lstrip('0')`: the result is a suffix that does not start with '0', and everything removed was '0' |
| CikLoader.ZFillThenStripZeros | SEC_Filing_Scraper.py:192 | for an unsigned entry, the URL's CIK segment does not depend on the zero padding |
| CikLoader.StripZerosValue | SEC_Filing_Scraper.py:192 | removing leading zeros keeps the numeric value of a digit string |
| CikLoader.StripZerosSplit | SEC_Filing_Scraper.py:192 | what `lstrip('0')` removes is all zeros: the entry is those zeros followed by the result |
| Cutoff.Weekday | SEC_Filing_Scraper.py:83 | `weekday()` numbering, Monday 0: the weekday of a day number is in 0..6 |
| Cutoff.PreviousFriday | SEC_Filing_Scraper.py:80-85 | the cutoff is 0 to 6 days before now; it is a Friday; it is today exactly when today is a Friday; no Friday lies between it and today; its time is 00:01:00.000000 |
| Cutoff.InstantOrder | SEC_Filing_Scraper.py:214 | comparing moments: an earlier day is an earlier moment, and on the same day the time of day decides |
| Cutoff.FilingDayVersusCutoff | SEC_Filing_Scraper.py:211-214 | a filing read as midnight of its day is at or after the cutoff exactly when its day is after the cutoff Friday, so a filing dated on that Friday is not new |
| Cutoff.NextDateIsNextDay | SEC_Filing_Scraper.py:83-84 | the day numbering follows the calendar: the next calendar date has the next day number |
| Cutoff.EpochIsThursday | SEC_Filing_Scraper.py:83 | 1970-01-01 is day 0 and has weekday 3 (Thursday) |
| Cutoff.ParseFilingDate | SEC_Filing_Scraper.py:211 | `pd.to_datetime` on one filing date: it reads as NaT exactly when it is empty or one of pandas' six spellings of NaT; a date read as a day lies in the 64-bit timestamp range |
| Cutoff.ParseFormattedDate | SEC_Filing_Scraper.py:211 | every valid date inside the timestamp range, written as "YYYY-MM-DD", reads as that date's day number |
| Cutoff.ReadIsFormattedDate | SEC_Filing_Scraper.py:211 | conversely, a string reads as a day only when it is a valid date written as "YYYY-MM-DD", and the day is that date's day number; every other string is NaT or cannot be read |
| Cutoff.CutoffExamples | SEC_Filing_Scraper.py:80-85 | a run on Wednesday 2024-01-17 and a run on Friday 2024-01-12, both at 10:00, both have the cutoff 2024-01-12 00:01 |
| RunLog.ApplyConsistent | SEC_Filing_Scraper.py:89-109 | each logger operation keeps the invariant: console and file have the same messages, the file is closed once if closed and never otherwise, and a closed file is flushed |
| RunLog.ReplayConsistent | SEC_Filing_Scraper.py:89-109 | any sequence of logger operations keeps that invariant |
| RunLog.ReplayFromOpened | SEC_Filing_Scraper.py:89-109 | from a fresh logger, console and file hold exactly the messages written before the first close, in order; the file is closed once if `close` was called, and never otherwise |
| RunLog.ClosedIsFinal | SEC_Filing_Scraper.py:96-109 | once closed, no `write`, `flush` or `close` changes anything |
| RunLog.Logger.constructor | SEC_Filing_Scraper.py:90-94 | a new logger is open, with an empty console record and an empty, freshly truncated file |
| RunLog.Logger.Write | SEC_Filing_Scraper.py:96-99 | while open, the message is appended to both console and file; once closed, nothing changes |
| RunLog.Logger.Flush | SEC_Filing_Scraper.py:101-104 | while open, both sinks are flushed up to what was written; once closed, nothing changes |
| RunLog.Logger.Close | SEC_Filing_Scraper.py:106-109 | the first call closes and flushes the file; after any call the logger is closed and the file has been closed exactly once |
| Filings.FetchClassification | SEC_Filing_Scraper.py:113-126 | only status 200 gives data, and the company name is `name` or "Unknown Company"; 404 and any other status give no data; a failure message is printed exactly for a non-200 status; a 200 body that is not a JSON object raises |
| Filings.BuildFilingsSpec | SEC_Filing_Scraper.py:170-184 | with `accessionNumber` present: a missing `filingDate`, `form` or `primaryDocument` raises, in that order; otherwise the table has exactly one row per accession number if all arrays agree in length, and raises if they do not; every row has the same company name and CIK; row i has the i-th entry of each array and the key cik + "-" + accession; an absent `reportDate` or `fileNumber` gives "N/A" in every row |
| Filings.CombinedFileNumberSplits | SEC_Filing_Scraper.py:178 | the combined key is the CIK, a '-', then the accession number, so it splits back into both |
| Filings.FormFilterSpec | SEC_Filing_Scraper.py:187 | a row is kept exactly when its form is not one of the ten excluded codes; every kept row keeps its multiplicity |
| Filings.FormFilterOrder | SEC_Filing_Scraper.py:187 | the kept rows are those at a strictly increasing list of positions, and a position is on that list exactly when the row's form is not excluded |
| Filings.FormFilterIdempotent | SEC_Filing_Scraper.py:187 | filtering twice is filtering once |
| Filings.FormMatchIsExact | SEC_Filing_Scraper.py:151 | forms are matched exactly and case-sensitively: "4/A" and "SC 13G/A" are excluded, while "4/a", "13G " and "10-K" are not |
| Filings.RemoveHyphensSpec | SEC_Filing_Scraper.py:193 | `replace('-', '')` leaves no hyphen, keeps every other character as often as it occurs, and keeps the other characters in their order |
| Filings.FilingUrlSpec | SEC_Filing_Scraper.py:191-195 | the URL is the archive base, the CIK without leading zeros, the accession number without its hyphens, and the accession number's index page; the CIK segment never starts with '0'; the folder segment has no '-' and otherwise keeps the accession's characters in order |
| Filings.FilingUrlExample | SEC_Filing_Scraper.py:191-195 | CIK 0000789019 with accession 0001234567-24-000001 gives https://www.sec.gov/Archives/edgar/data/789019/000123456724000001/0001234567-24-000001-index.html |
| Filings.WithUrls | SEC_Filing_Scraper.py:191-195 | adding the URL column keeps every row and its order |
| ValueCounts.TallySpec | SEC_Filing_Scraper.py:221 | the first-appearance tally has one entry per distinct form; each entry's count is that form's positive number of occurrences; the counts add up to the number of rows |
| ValueCounts.SortElements | SEC_Filing_Scraper.py:221 | sorting by count is a permutation of the tally and keeps its total |
| ValueCounts.SortSorted | SEC_Filing_Scraper.py:221 | the sorted counts do not increase |
| ValueCounts.CountByFormSpec | SEC_Filing_Scraper.py:221 | `value_counts()`: one entry per distinct form of the input; each count is the exact, positive number of occurrences; counts are listed most frequent first; they add up to the number of input rows |
| Pipeline.ProcessCikRouting | SEC_Filing_Scraper.py:160-204 | a CIK goes to the failed list exactly when the answer is not 200 or its JSON object is empty, and a message is printed exactly for a non-200 answer; a CIK without `accessionNumber` goes to neither list; a CIK whose table builds goes to the successful list even if the filter leaves no row; any other answer raises |
| Pipeline.FetchedRowsWellFormed | SEC_Filing_Scraper.py:170-198 | every row kept for a CIK carries that CIK, a non-excluded form, the combined key and the URL of its accession number |
| Pipeline.KeptRowsWellFormed | SEC_Filing_Scraper.py:174-195 | from a table whose rows carry the CIK and the combined key, every row that survives the form filter keeps that CIK and key, has a non-excluded form, and gets the URL of its accession number |
| Pipeline.NotFound | SEC_Filing_Scraper.py:121-123 | a 404 answer puts the CIK on the failed list with the message "Data not found for CIK ... (404)." |
| Pipeline.PrintFailure | SEC_Filing_Scraper.py:121-126 | the message a failed fetch printed, then a newline, reaches both the console and the log file, and nothing else changes |
| Pipeline.Collect | SEC_Filing_Scraper.py:160-204 | the loop stops at the first error; without an error, every CIK of the list has an outcome |
| Pipeline.CollectUpTo | SEC_Filing_Scraper.py:160-204 | the loop's result is determined by the outcomes of the CIKs processed so far: when each of them succeeded and then either the list ended or the next CIK raised, that is what `Collect` gives |
| Pipeline.CollectSpec | SEC_Filing_Scraper.py:160-204 | the CIKs are processed in list order: the k-th outcome is the k-th CIK's, and an error comes from the first CIK whose processing raised |
| Pipeline.CollectStops | SEC_Filing_Scraper.py:160-204 | after the CIK that raised, no further CIK is processed |
| Pipeline.AllRowsAppend | SEC_Filing_Scraper.py:198 | `pd.concat` in CIK order: the rows of later CIKs follow those of earlier ones |
| Pipeline.AllRowsCount | SEC_Filing_Scraper.py:187-198 | the spreadsheet has as many rows as all per-CIK filtered tables together |
| Pipeline.CollectedCiks | SEC_Filing_Scraper.py:161-204 | both lists keep CIK order; a processed CIK is on the successful list exactly when its table was built, and on the failed list exactly when it gave no data, so it is never on both |
| Pipeline.CollectFilings | SEC_Filing_Scraper.py:160-204 | for any loop body (`Run` passes the one built from the fetch answers), the loop's rows, successful and failed lists and ending error are those of `Collect`; the logger has received exactly the fetch-failure messages, each followed by a newline, and stays open |
| Pipeline.TwoCikScenario | SEC_Filing_Scraper.py:160-204 | two CIKs, the first answering with three filings of which one has an excluded form and the second answering 404: the spreadsheet gets two rows, the first CIK is the only successful one, the second is the only failed one, and the log holds its 404 message |
| Pipeline.ParseDates | SEC_Filing_Scraper.py:211 | the date conversion succeeds exactly when no filing date is unreadable; then each row is dated, in order, at midnight of its filing day, or NaT when its date reads as NaT |
| Pipeline.ParseDatesError | SEC_Filing_Scraper.py:211 | a failed conversion reports the first filing date that cannot be read |
| Pipeline.NewFilingsSpec | SEC_Filing_Scraper.py:211-214 | the new filings are, in spreadsheet order, exactly the rows that have a date (not NaT) on a day after the cutoff Friday |
| Pipeline.Run | SEC_Filing_Scraper.py:129-234 | the outcome is `RunSpec`; the logger is closed exactly once on every way out, including an error; console and log hold the fetch-failure messages |
| Pipeline.RunCompletes | SEC_Filing_Scraper.py:129-223 | a run completes exactly when the CIK file is readable, no CIK raises, at least one row was collected and no filing date is unreadable (NaT is allowed); with no rows it fails on the missing 'Filing Date' column |
| Pipeline.SummarizeCompletes | SEC_Filing_Scraper.py:206-223 | after the loop, the run completes exactly when nothing raised, at least one row was collected and no filing date is unreadable; with no rows the missing 'Filing Date' column aborts it |
| Pipeline.AllRowsWellFormed | SEC_Filing_Scraper.py:187-201 | when each CIK's table is well formed and carries its CIK, every spreadsheet row is well formed and its CIK is on the successful list |
| Pipeline.CompletedReport | SEC_Filing_Scraper.py:187-223 | in a completed run every spreadsheet row is well formed and belongs to a successful CIK; the cutoff is the previous Friday; every new filing is a spreadsheet row with a date on a day after the cutoff Friday; the form counts are exact, distinct, positive, non-increasing, and add up to the number of new filings |

## Left out

- Network and JSON: `requests.get`, the request headers and `response.json()` are not modelled. The decoded body is a `Submission` value, or `None` when it is not a JSON object. A request that raises instead of answering is not modelled.
- `time.sleep(0.33)` between requests: timing only.
- `datetime.now`, `pytz` and daylight saving: `now` is an input in local days and a time of day, and time-zone offsets are not modelled.
- `to_excel`, `ensure_directory_exists` / `os.makedirs`, opening the log file, `sys.exit` and the `sys.stdout` redirection are file-system and process plumbing. An unreadable CIK file is the outcome `Aborted(CikFileUnreadable)`. The failure to open the log file is not modelled.
- Output other than the two fetch-failure messages: the program banner, the loader's and the analysis summary's prints, and the per-form breakdown lines. They are console text only, so the modelled log holds only the fetch-failure messages.
- `Cutoff.ParseFilingDate`: reads only "YYYY-MM-DD" dates, the form the SEC submission record uses, plus pandas' NaT strings. Other formats that `pd.to_datetime` would accept, and surrounding whitespace, are treated as unreadable. A JSON `null` in the date array is not modelled, since filing dates are strings here.
- `ValueCounts.CountByFormSpec`: does not state the order among forms with equal counts. The model keeps first-appearance order, and pandas does not promise any particular order.
- `Pipeline.Run`: two requests for the same CIK are separate requests (`fetch(i, cik)`), which may get different answers.
- Directory_Creation.py and Directory_Removal.py are not part of this model: they only create and remove directories and ask for confirmation.
- pandas itself: tables are sequences of row records, and only the `isin`, `apply`, `concat`, `to_datetime`, comparison and `value_counts` behaviour used here is modelled.
