/**
  One run of the scraper: load the CIKs, fetch and tabulate each company's
  recent filings, keep the reportable forms, then pick out the filings made
  since the weekly cutoff and count them by form. The logger stands in for
  standard output for the whole run and is closed however the run ends.

  The SEC's answers are an oracle `fetch(i, cik)`: the response to the
  request for the i-th CIK of the list.
 */
module Pipeline {
  import opened Seqs
  import opened CikLoader
  import opened Cutoff
  import opened Filings
  import opened ValueCounts
  import opened RunLog

  /** What one pass of the loop body makes of a CIK. */
  datatype CikOutcome =
    | NoData(message: Option<string>)   // no data (failed_ciks), with what the fetch printed
    | NoRecentFilings                   // data without `accessionNumber`: on neither list
    | Fetched(rows: seq<ReportRow>)     // successful_ciks, with the rows that survive the form filter

  /** The loop body for one CIK and the answer to its request. */
  function ProcessCik(cik: string, r: Response): Result<CikOutcome, RunError> {
    match FetchSecData(cik, r)
    case Err(e) => Err(e)
    case Ok(f) =>
      if f.Data? && IsNonEmpty(f.submission) then
        var recent := RecentOf(f.submission);
        if recent.accessionNumber.None? then Ok(NoRecentFilings)
        else
          match BuildFilings(cik, f.companyName, recent)
          case Err(e) => Err(e)
          case Ok(fs) => Ok(Fetched(WithUrls(FilterForms(fs))))
      else Ok(NoData(FailureMessage(cik, f)))
  }

  /**
    How a CIK is routed: to the failed list exactly when the answer is not a
    200 or its JSON object is empty (with a message exactly in the first
    case); to neither list when the data has no `accessionNumber`; to the
    successful list when the table builds, even if the filter leaves no row.
   */
  lemma ProcessCikRouting(cik: string, r: Response)
    ensures var o := ProcessCik(cik, r);
      && (o.Ok? && o.value.NoData? <==> r.status != 200 || (r.body.Some? && !IsNonEmpty(r.body.value)))
      && (o.Ok? && o.value.NoData? ==> (o.value.message.Some? <==> r.status != 200))
      && (o.Ok? && o.value.NoRecentFilings? <==>
            r.status == 200 && r.body.Some? && IsNonEmpty(r.body.value)
            && RecentOf(r.body.value).accessionNumber.None?)
    ensures var o := ProcessCik(cik, r);
      var name := if r.body.Some? then r.body.value.name.GetOr(UnknownCompany) else UnknownCompany;
      && (o.Ok? && o.value.Fetched? <==>
            r.status == 200 && r.body.Some? && IsNonEmpty(r.body.value)
            && RecentOf(r.body.value).accessionNumber.Some?
            && BuildFilings(cik, name, RecentOf(r.body.value)).Ok?)
      && (o.Ok? && o.value.Fetched? ==>
            o.value.rows == WithUrls(FilterForms(BuildFilings(cik, name, RecentOf(r.body.value)).value)))
    ensures ProcessCik(cik, r).Err? <==>
      r.status == 200 && (r.body.None? ||
        (IsNonEmpty(r.body.value) && RecentOf(r.body.value).accessionNumber.Some?
         && BuildFilings(cik, r.body.value.name.GetOr(UnknownCompany), RecentOf(r.body.value)).Err?))
  {
    FetchClassification(cik, r);
  }

  /** A spreadsheet row as the run writes it. */
  ghost predicate WellFormedRow(row: ReportRow) {
    && row.filing.form !in ExcludedForms
    && row.filing.combinedFileNumber == CombinedFileNumber(row.filing.cik, row.filing.accessionNumber)
    && row.url == FilingUrl(row.filing.cik, row.filing.accessionNumber)
  }

  /**
    Every row kept for a CIK carries that CIK, a reportable form, the
    combined key and the URL of its accession number.
   */
  lemma FetchedRowsWellFormed(cik: string, r: Response)
    requires ProcessCik(cik, r).Ok? && ProcessCik(cik, r).value.Fetched?
    ensures forall row :: row in ProcessCik(cik, r).value.rows ==> row.filing.cik == cik && WellFormedRow(row)
  {
    ProcessCikRouting(cik, r);
    var recent := RecentOf(r.body.value);
    var name := r.body.value.name.GetOr(UnknownCompany);
    BuildFilingsSpec(cik, name, recent);
    KeptRowsWellFormed(cik, BuildFilings(cik, name, recent).value);
  }

  /** The rows made from a company's table keep its CIK, its keys and their URLs. */
  lemma KeptRowsWellFormed(cik: string, fs: seq<Filing>)
    requires forall k :: 0 <= k < |fs| ==>
      fs[k].cik == cik && fs[k].combinedFileNumber == CombinedFileNumber(cik, fs[k].accessionNumber)
    ensures forall row :: row in WithUrls(FilterForms(fs)) ==> row.filing.cik == cik && WellFormedRow(row)
  {
    FormFilterSpec(fs);
    var kept := FilterForms(fs);
    var rows := WithUrls(kept);
    forall row | row in rows ensures row.filing.cik == cik && WellFormedRow(row) {
      var k :| 0 <= k < |rows| && rows[k] == row;
      var f := kept[k];
      assert f in fs;
      var j :| 0 <= j < |fs| && fs[j] == f;
      assert row.filing == f && f.form !in ExcludedForms;
    }
  }

  /** The per-CIK outcomes up to the first error, which ends the run. */
  datatype Collected = Collected(outcomes: seq<CikOutcome>, error: Option<RunError>)

  /** What the loop body makes of the i-th CIK of the list. */
  type Step = (nat, string) -> Result<CikOutcome, RunError>

  /** The loop body on the answer to each request. */
  function Answers(fetch: (nat, string) -> Response): Step {
    (i: nat, cik: string) => ProcessCik(cik, fetch(i, cik))
  }

  /** The loop over the CIK list, as a function of the list and the loop body. */
  function Collect(ciks: seq<string>, step: Step): (c: Collected)
    ensures |c.outcomes| <= |ciks|
    ensures c.error.None? ==> |c.outcomes| == |ciks|
    ensures c.error.Some? ==> |c.outcomes| < |ciks|
  {
    if |ciks| == 0 then Collected([], None)
    else
      var i := |ciks| - 1;
      var prev := Collect(ciks[..i], step);
      if prev.error.Some? then prev
      else
        match step(i, ciks[i])
        case Err(e) => Collected(prev.outcomes, Some(e))
        case Ok(o) => Collected(prev.outcomes + [o], None)
  }

  /**
    The loop processes the CIKs in list order: the k-th outcome is the k-th
    CIK's, and an error stops the loop at the CIK that raised it.
   */
  lemma {:induction false} CollectSpec(ciks: seq<string>, step: Step)
    ensures var c := Collect(ciks, step);
      forall k :: 0 <= k < |c.outcomes| ==> step(k, ciks[k]) == Ok(c.outcomes[k])
    ensures var c := Collect(ciks, step);
      c.error.Some? ==> step(|c.outcomes|, ciks[|c.outcomes|]) == Err(c.error.value)
  {
    if |ciks| > 0 {
      var i := |ciks| - 1;
      var init := ciks[..i];
      CollectSpec(init, step);
      var prev := Collect(init, step);
      forall k | 0 <= k < |prev.outcomes| ensures ciks[k] == init[k] { }
    }
  }

  /** Once a prefix of the list has raised, the rest of the list is never fetched. */
  lemma {:induction false} CollectStops(ciks: seq<string>, step: Step, j: nat)
    requires j <= |ciks| && Collect(ciks[..j], step).error.Some?
    ensures Collect(ciks, step) == Collect(ciks[..j], step)
  {
    if j < |ciks| {
      var init := ciks[..|ciks| - 1];
      assert init[..j] == ciks[..j];
      CollectStops(init, step, j);
    } else {
      assert ciks[..j] == ciks;
    }
  }

  function RowsOf(o: CikOutcome): seq<ReportRow> {
    if o.Fetched? then o.rows else []
  }

  /** `pd.concat` of the per-CIK tables, in CIK order. */
  function AllRows(os: seq<CikOutcome>): seq<ReportRow> {
    if |os| == 0 then [] else AllRows(os[..|os| - 1]) + RowsOf(os[|os| - 1])
  }

  /** The concatenation is taken piecewise: the rows of later CIKs follow those of earlier ones. */
  lemma {:induction false} AllRowsAppend(a: seq<CikOutcome>, b: seq<CikOutcome>)
    ensures AllRows(a + b) == AllRows(a) + AllRows(b)
  {
    if |b| > 0 {
      var init := b[..|b| - 1];
      AllRowsAppend(a, init);
      assert (a + b)[..|a + b| - 1] == a + init;
    } else {
      assert a + b == a;
    }
  }

  /** The number of rows each CIK contributes, added up from the first CIK on. */
  function RowCount(os: seq<CikOutcome>): nat {
    if |os| == 0 then 0 else |RowsOf(os[0])| + RowCount(os[1..])
  }

  /** The spreadsheet has as many rows as the per-CIK filtered tables together. */
  lemma {:induction false} AllRowsCount(os: seq<CikOutcome>)
    ensures |AllRows(os)| == RowCount(os)
  {
    if |os| > 0 {
      assert [os[0]] + os[1..] == os;
      AllRowsAppend([os[0]], os[1..]);
      assert [os[0]][..0] == [];
      AllRowsCount(os[1..]);
    }
  }

  predicate IsFetched(o: CikOutcome) {
    o.Fetched?
  }

  predicate IsNoData(o: CikOutcome) {
    o.NoData?
  }

  /** The CIKs whose outcome satisfies `p`, in list order. */
  function CiksWhere(ciks: seq<string>, os: seq<CikOutcome>, p: CikOutcome -> bool): seq<string>
    requires |os| <= |ciks|
  {
    if |os| == 0 then []
    else CiksWhere(ciks, os[..|os| - 1], p) + (if p(os[|os| - 1]) then [ciks[|os| - 1]] else [])
  }

  /** `successful_ciks`. */
  function Successful(ciks: seq<string>, os: seq<CikOutcome>): seq<string>
    requires |os| <= |ciks|
  {
    CiksWhere(ciks, os, IsFetched)
  }

  /** `failed_ciks`. */
  function Failed(ciks: seq<string>, os: seq<CikOutcome>): seq<string>
    requires |os| <= |ciks|
  {
    CiksWhere(ciks, os, IsNoData)
  }

  /** The selected CIKs are those at the positions `KeptIndices` picks. */
  lemma {:induction false} CiksWhereIndices(ciks: seq<string>, os: seq<CikOutcome>, p: CikOutcome -> bool)
    requires |os| <= |ciks|
    ensures |CiksWhere(ciks, os, p)| == |KeptIndices(os, p)|
    ensures forall k :: 0 <= k < |KeptIndices(os, p)| ==> CiksWhere(ciks, os, p)[k] == ciks[KeptIndices(os, p)[k]]
  {
    if |os| > 0 {
      var n := |os| - 1;
      CiksWhereIndices(ciks, os[..n], p);
      var K, K0 := KeptIndices(os, p), KeptIndices(os[..n], p);
      var C, C0 := CiksWhere(ciks, os, p), CiksWhere(ciks, os[..n], p);
      assert K == K0 + (if p(os[n]) then [n] else []);
      assert C == C0 + (if p(os[n]) then [ciks[n]] else []);
      forall k | 0 <= k < |K| ensures C[k] == ciks[K[k]] {
        if k < |K0| {
          assert C[k] == C0[k] && K[k] == K0[k];
        }
      }
    }
  }

  /**
    Both lists are in CIK order; a processed CIK is on the successful list
    exactly when its table was built and on the failed list exactly when it
    yielded no data, so never on both.
   */
  lemma CollectedCiks(ciks: seq<string>, step: Step)
    ensures var c := Collect(ciks, step);
      var S, F := KeptIndices(c.outcomes, IsFetched), KeptIndices(c.outcomes, IsNoData);
      && StrictlyIncreasing(S) && StrictlyIncreasing(F)
      && |Successful(ciks, c.outcomes)| == |S| && |Failed(ciks, c.outcomes)| == |F|
      && (forall k :: 0 <= k < |S| ==> Successful(ciks, c.outcomes)[k] == ciks[S[k]])
      && (forall k :: 0 <= k < |F| ==> Failed(ciks, c.outcomes)[k] == ciks[F[k]])
      && (forall j :: 0 <= j < |c.outcomes| ==>
            && (j in S <==> step(j, ciks[j]).Ok? && step(j, ciks[j]).value.Fetched?)
            && (j in F <==> step(j, ciks[j]).Ok? && step(j, ciks[j]).value.NoData?)
            && !(j in S && j in F))
  {
    var c := Collect(ciks, step);
    CollectSpec(ciks, step);
    CiksWhereIndices(ciks, c.outcomes, IsFetched);
    CiksWhereIndices(ciks, c.outcomes, IsNoData);
    FilterIndices(c.outcomes, IsFetched);
    FilterIndices(c.outcomes, IsNoData);
  }

  /** What the fetch printed for one outcome, as the writes of `print`: the message, then a newline. */
  function Printed(o: CikOutcome): seq<string> {
    if o.NoData? && o.message.Some? then [o.message.value, "\n"] else []
  }

  /** What the fetches printed, CIK after CIK. */
  function FailureLines(os: seq<CikOutcome>): seq<string> {
    if |os| == 0 then [] else FailureLines(os[..|os| - 1]) + Printed(os[|os| - 1])
  }

  /**
    The loop's result from what it saw: when the first |outcomes| CIKs went
    through with these outcomes, the loop ends with them, either after the
    last CIK or at the next CIK, which raised.
   */
  lemma {:induction false} CollectUpTo(ciks: seq<string>, step: Step, outcomes: seq<CikOutcome>, error: Option<RunError>)
    requires |outcomes| <= |ciks|
    requires forall k :: 0 <= k < |outcomes| ==> step(k, ciks[k]) == Ok(outcomes[k])
    requires error.None? ==> |outcomes| == |ciks|
    requires error.Some? ==> |outcomes| < |ciks| && step(|outcomes|, ciks[|outcomes|]) == Err(error.value)
    ensures Collect(ciks, step) == Collected(outcomes, error)
  {
    var n := |ciks|;
    if n > 0 {
      var init := ciks[..n - 1];
      if error.Some? && |outcomes| < n - 1 {
        forall k | 0 <= k < |outcomes| ensures step(k, init[k]) == Ok(outcomes[k]) {
          assert init[k] == ciks[k];
        }
        assert init[|outcomes|] == ciks[|outcomes|];
        CollectUpTo(init, step, outcomes, error);
      } else {
        var m := n - 1;
        var before := outcomes[..m];
        forall k | 0 <= k < m ensures step(k, init[k]) == Ok(before[k]) {
          assert init[k] == ciks[k];
        }
        CollectUpTo(init, step, before, None);
        if error.None? {
          assert outcomes == before + [outcomes[m]];
        } else {
          assert before == outcomes;
        }
      }
    }
  }

  /** The views of the outcomes grow by what one more outcome contributes. */
  lemma ViewsStep(ciks: seq<string>, outcomes: seq<CikOutcome>, o: CikOutcome)
    requires |outcomes| < |ciks|
    ensures AllRows(outcomes + [o]) == AllRows(outcomes) + RowsOf(o)
    ensures Successful(ciks, outcomes + [o]) == Successful(ciks, outcomes) + (if o.Fetched? then [ciks[|outcomes|]] else [])
    ensures Failed(ciks, outcomes + [o]) == Failed(ciks, outcomes) + (if o.NoData? then [ciks[|outcomes|]] else [])
    ensures FailureLines(outcomes + [o]) == FailureLines(outcomes) + Printed(o)
  {
    assert (outcomes + [o])[..|outcomes|] == outcomes;
  }

  /**
    The loop of `main` over the CIK list. `step(i, cik)` is the loop body
    for the i-th CIK, which `Run` gives as `Answers(fetch)`: fetch the
    record, then `ProcessCik` on the answer. The rows, the successful and
    failed lists and the error that ends the loop are those of `Collect`,
    and the logger has received exactly the fetch-failure messages.
   */
  method CollectFilings(ciks: seq<string>, step: Step, logger: Logger)
    returns (rows: seq<ReportRow>, successful: seq<string>, failed: seq<string>, error: Option<RunError>)
    requires logger.Valid() && !logger.isClosed
    modifies logger
    ensures var c := Collect(ciks, step);
      && error == c.error
      && rows == AllRows(c.outcomes)
      && successful == Successful(ciks, c.outcomes)
      && failed == Failed(ciks, c.outcomes)
    ensures logger.Valid() && !logger.isClosed
    ensures logger.console == old(logger.console) + FailureLines(Collect(ciks, step).outcomes)
    ensures logger.log == old(logger.log) + FailureLines(Collect(ciks, step).outcomes)
    ensures logger.consoleFlushed == old(logger.consoleFlushed) && logger.logFlushed == old(logger.logFlushed)
    ensures logger.logCloses == old(logger.logCloses)
  {
    rows, successful, failed, error := [], [], [], None;
    ghost var outcomes: seq<CikOutcome> := [];
    ghost var printed: seq<string> := [];
    var i := 0;
    while i < |ciks|
      invariant 0 <= i <= |ciks| && |outcomes| == i
      invariant forall k :: 0 <= k < i ==> step(k, ciks[k]) == Ok(outcomes[k])
      invariant rows == AllRows(outcomes)
      invariant successful == Successful(ciks, outcomes) && failed == Failed(ciks, outcomes)
      invariant printed == FailureLines(outcomes)
      invariant logger.Valid() && !logger.isClosed
      invariant logger.console == old(logger.console) + printed
      invariant logger.log == old(logger.log) + printed
      invariant logger.consoleFlushed == old(logger.consoleFlushed) && logger.logFlushed == old(logger.logFlushed)
      invariant logger.logCloses == old(logger.logCloses)
    {
      var cik := ciks[i];
      var result := step(i, cik);
      if result.Err? {
        error := Some(result.error);
        CollectUpTo(ciks, step, outcomes, error);
        return;
      }
      var o := result.value;
      ViewsStep(ciks, outcomes, o);
      PrintFailure(o, logger);
      Reassociate(old(logger.console), printed, Printed(o));
      Reassociate(old(logger.log), printed, Printed(o));
      printed := printed + Printed(o);
      if o.NoData? {
        failed := failed + [cik];
      } else if o.Fetched? {
        rows := rows + o.rows;
        successful := successful + [cik];
      }
      outcomes := outcomes + [o];
      i := i + 1;
    }
    CollectUpTo(ciks, step, outcomes, None);
  }

  /** The message a failed fetch printed goes to the console and the log file. */
  lemma Reassociate(a: seq<string>, b: seq<string>, c: seq<string>)
    ensures (a + b) + c == a + (b + c)
  {
  }

  method PrintFailure(o: CikOutcome, logger: Logger)
    requires logger.Valid() && !logger.isClosed
    modifies logger
    ensures logger.Valid() && !logger.isClosed
    ensures logger.console == old(logger.console) + Printed(o) && logger.log == old(logger.log) + Printed(o)
    ensures logger.consoleFlushed == old(logger.consoleFlushed) && logger.logFlushed == old(logger.logFlushed)
    ensures logger.logCloses == old(logger.logCloses)
  {
    if o.NoData? && o.message.Some? {
      logger.Write(o.message.value);
      logger.Write("\n");
    }
  }

  /** A filing whose date has been read; `filed` is None when the date is NaT. */
  datatype DatedRow = DatedRow(row: ReportRow, filed: Option<DateTime>)

  /** The moment a readable date stands for: midnight of its day, or NaT. */
  function Moment(reading: DateReading): Option<DateTime>
    requires !reading.Unreadable?
  {
    if reading.Read? then Some(DateTime(reading.day, Midnight)) else None
  }

  /**
    `pd.to_datetime` on the Filing Date column: every date read as midnight
    of its day or as NaT, or the first date that cannot be read.
   */
  function ParseDates(rows: seq<ReportRow>): (r: Result<seq<DatedRow>, RunError>)
    ensures r.Ok? <==> forall k :: 0 <= k < |rows| ==> !ParseFilingDate(rows[k].filing.filingDate).Unreadable?
    ensures r.Ok? ==> |r.value| == |rows| && forall k :: 0 <= k < |rows| ==>
      && r.value[k].row == rows[k]
      && r.value[k].filed == Moment(ParseFilingDate(rows[k].filing.filingDate))
  {
    if |rows| == 0 then Ok([])
    else
      var n := |rows| - 1;
      var last := rows[n];
      match ParseDates(rows[..n])
      case Err(e) => Err(e)
      case Ok(dated) =>
        var reading := ParseFilingDate(last.filing.filingDate);
        if reading.Unreadable? then Err(BadFilingDate(last.filing.filingDate))
        else Ok(dated + [DatedRow(last, Moment(reading))])
  }

  /** A date that cannot be read is reported by the first such row. */
  lemma {:induction false} ParseDatesError(rows: seq<ReportRow>)
    requires ParseDates(rows).Err?
    ensures exists k :: && 0 <= k < |rows|
                        && ParseFilingDate(rows[k].filing.filingDate).Unreadable?
                        && ParseDates(rows).error == BadFilingDate(rows[k].filing.filingDate)
                        && forall j :: 0 <= j < k ==> !ParseFilingDate(rows[j].filing.filingDate).Unreadable?
  {
    var n := |rows| - 1;
    var init := rows[..n];
    var k: nat;
    if ParseDates(init).Err? {
      assert ParseDates(rows).error == ParseDates(init).error;
      ParseDatesError(init);
      k :| && 0 <= k < n
           && ParseFilingDate(init[k].filing.filingDate).Unreadable?
           && ParseDates(init).error == BadFilingDate(init[k].filing.filingDate)
           && forall j :: 0 <= j < k ==> !ParseFilingDate(init[j].filing.filingDate).Unreadable?;
      assert rows[k] == init[k];
      forall j | 0 <= j < k ensures !ParseFilingDate(rows[j].filing.filingDate).Unreadable? {
        assert rows[j] == init[j];
      }
    } else {
      k := n;
      forall j | 0 <= j < k ensures !ParseFilingDate(rows[j].filing.filingDate).Unreadable? {
        assert rows[j] == init[j];
      }
    }
    assert ParseDates(rows).error == BadFilingDate(rows[k].filing.filingDate);
  }

  /** `all_filings_df['Filing Date'] >= previous_friday_naive`; NaT compares false. */
  predicate IsNewSince(cutoff: DateTime, d: DatedRow) {
    d.filed.Some? && Instant(d.filed.value) >= Instant(cutoff)
  }

  /** The filings made since the cutoff, in spreadsheet order. */
  function NewFilings(dated: seq<DatedRow>, cutoff: DateTime): seq<DatedRow> {
    Filter(dated, d => IsNewSince(cutoff, d))
  }

  /**
    A filing is new exactly when it has a date and was filed on a day after
    the cutoff Friday; the new filings keep the spreadsheet's order.
   */
  lemma NewFilingsSpec(rows: seq<ReportRow>, now: DateTime)
    requires ParseDates(rows).Ok?
    ensures var dated := ParseDates(rows).value;
      var cutoff := PreviousFriday(now);
      var K := KeptIndices(dated, d => IsNewSince(cutoff, d));
      && StrictlyIncreasing(K)
      && |NewFilings(dated, cutoff)| == |K|
      && (forall k :: 0 <= k < |K| ==> NewFilings(dated, cutoff)[k] == dated[K[k]])
      && (forall j :: 0 <= j < |rows| ==> (j in K <==> dated[j].filed.Some? && dated[j].filed.value.day > cutoff.day))
  {
    var dated := ParseDates(rows).value;
    var cutoff := PreviousFriday(now);
    var p := d => IsNewSince(cutoff, d);
    FilterIndices(dated, p);
    forall j | 0 <= j < |rows| ensures p(dated[j]) <==> dated[j].filed.Some? && dated[j].filed.value.day > cutoff.day {
      if dated[j].filed.Some? {
        FilingDayVersusCutoff(dated[j].filed.value.day, now);
      }
    }
  }

  function FormsOf(dated: seq<DatedRow>): (forms: seq<string>)
    ensures |forms| == |dated| && forall k :: 0 <= k < |dated| ==> forms[k] == dated[k].row.filing.form
  {
    seq(|dated|, k requires 0 <= k < |dated| => dated[k].row.filing.form)
  }

  /** What a completed run reports. */
  datatype Report = Report(
    rows: seq<ReportRow>,            // the spreadsheet
    successful: seq<string>,
    failed: seq<string>,
    cutoff: DateTime,
    newFilings: seq<DatedRow>,
    formCounts: seq<FormCount>)

  datatype RunOutcome = Completed(report: Report) | Aborted(error: RunError)

  /**
    `main`, given the lines of the CIK file (None when it cannot be opened),
    the answers to the requests and the current Eastern time.
   */
  function RunSpec(cikFile: Option<seq<string>>, fetch: (nat, string) -> Response, now: DateTime): RunOutcome {
    match cikFile
    case None => Aborted(CikFileUnreadable)
    case Some(lines) => RunOnCiks(LoadCiks(lines), Answers(fetch), now)
  }

  /** The run once the CIK list is loaded, for any loop body. */
  function RunOnCiks(ciks: seq<string>, step: Step, now: DateTime): RunOutcome {
    var c := Collect(ciks, step);
    Summarize(AllRows(c.outcomes), Successful(ciks, c.outcomes), Failed(ciks, c.outcomes), c.error, now)
  }

  /**
    What `main` does after the loop: an error raised in the loop aborts the
    run; otherwise the dates are read, the filings since the cutoff picked
    out and counted by form. Without a single row the frame has no
    "Filing Date" column to read.
   */
  function Summarize(rows: seq<ReportRow>, successful: seq<string>, failed: seq<string>,
                     error: Option<RunError>, now: DateTime): RunOutcome {
    if error.Some? then Aborted(error.value)
    else if |rows| == 0 then Aborted(MissingColumn("Filing Date"))
    else
      match ParseDates(rows)
      case Err(e) => Aborted(e)
      case Ok(dated) =>
        var cutoff := PreviousFriday(now);
        var sinceCutoff := NewFilings(dated, cutoff);
        Completed(Report(rows, successful, failed, cutoff, sinceCutoff, CountByForm(FormsOf(sinceCutoff))))
  }

  /** The messages the run leaves in the log. */
  function RunMessages(cikFile: Option<seq<string>>, fetch: (nat, string) -> Response): seq<string> {
    match cikFile
    case None => []
    case Some(lines) => FailureLines(Collect(LoadCiks(lines), Answers(fetch)).outcomes)
  }

  /**
    `main`: the logger is installed first and closed on every way out, the
    outcome is `RunSpec`'s and the log holds the fetch-failure
    messages.
   */
  method Run(cikFile: Option<seq<string>>, fetch: (nat, string) -> Response, now: DateTime)
    returns (outcome: RunOutcome, logger: Logger)
    ensures fresh(logger) && logger.Valid()
    ensures outcome == RunSpec(cikFile, fetch, now)
    ensures logger.isClosed && logger.logCloses == 1
    ensures logger.log == RunMessages(cikFile, fetch) && logger.console == logger.log
  {
    logger := new Logger();
    if cikFile.None? {
      outcome := Aborted(CikFileUnreadable);
      logger.Close();
      return;
    }
    var ciks := LoadCiks(cikFile.value);
    var rows, successful, failed, error := CollectFilings(ciks, Answers(fetch), logger);
    outcome := Summarize(rows, successful, failed, error, now);
    ghost var c := Collect(ciks, Answers(fetch));
    assert outcome == RunOnCiks(ciks, Answers(fetch), now);
    assert logger.log == FailureLines(c.outcomes);
    logger.Close();
  }

  /**
    A run completes exactly when the CIK file is readable, no CIK raises,
    at least one reportable filing was collected and every filing date
    reads as a date or as NaT.
   */
  lemma RunCompletes(cikFile: Option<seq<string>>, fetch: (nat, string) -> Response, now: DateTime)
    ensures RunSpec(cikFile, fetch, now).Completed? <==>
      && cikFile.Some?
      && Collect(LoadCiks(cikFile.value), Answers(fetch)).error.None?
      && |AllRows(Collect(LoadCiks(cikFile.value), Answers(fetch)).outcomes)| > 0
      && forall row :: row in AllRows(Collect(LoadCiks(cikFile.value), Answers(fetch)).outcomes) ==>
           !ParseFilingDate(row.filing.filingDate).Unreadable?
    ensures (cikFile.Some? && Collect(LoadCiks(cikFile.value), Answers(fetch)).error.None?
             && |AllRows(Collect(LoadCiks(cikFile.value), Answers(fetch)).outcomes)| == 0)
      ==> RunSpec(cikFile, fetch, now) == Aborted(MissingColumn("Filing Date"))
  {
    if cikFile.Some? {
      var ciks := LoadCiks(cikFile.value);
      var c := Collect(ciks, Answers(fetch));
      SummarizeCompletes(AllRows(c.outcomes), Successful(ciks, c.outcomes), Failed(ciks, c.outcomes), c.error, now);
    }
  }

  /** After the loop, the run completes exactly when nothing raised, some row was kept and no date is unreadable. */
  lemma SummarizeCompletes(rows: seq<ReportRow>, successful: seq<string>, failed: seq<string>,
                           error: Option<RunError>, now: DateTime)
    ensures Summarize(rows, successful, failed, error, now).Completed? <==>
      error.None? && |rows| > 0 && forall row :: row in rows ==> !ParseFilingDate(row.filing.filingDate).Unreadable?
    ensures error.None? && |rows| == 0 ==>
      Summarize(rows, successful, failed, error, now) == Aborted(MissingColumn("Filing Date"))
  {
    if forall row :: row in rows ==> !ParseFilingDate(row.filing.filingDate).Unreadable? {
      assert forall k :: 0 <= k < |rows| ==> rows[k] in rows;
    }
  }

  /** Every table the loop body keeps is well formed and carries the CIK it was fetched for. */
  ghost predicate KeepsWellFormedRows(step: Step) {
    forall i, cik :: step(i, cik).Ok? && step(i, cik).value.Fetched? ==>
      forall row :: row in step(i, cik).value.rows ==> row.filing.cik == cik && WellFormedRow(row)
  }

  lemma AnswersWellFormed(fetch: (nat, string) -> Response)
    ensures KeepsWellFormedRows(Answers(fetch))
  {
    forall i, cik | Answers(fetch)(i, cik).Ok? && Answers(fetch)(i, cik).value.Fetched?
      ensures forall row :: row in Answers(fetch)(i, cik).value.rows ==> row.filing.cik == cik && WellFormedRow(row)
    {
      FetchedRowsWellFormed(cik, fetch(i, cik));
    }
  }

  /**
    Every row of the spreadsheet came from a successful CIK's table and is
    well formed, when each CIK's table carries that CIK and is well formed.
   */
  lemma {:induction false} AllRowsWellFormed(ciks: seq<string>, os: seq<CikOutcome>)
    requires |os| <= |ciks|
    requires forall k :: 0 <= k < |os| ==>
      forall row :: row in RowsOf(os[k]) ==> row.filing.cik == ciks[k] && WellFormedRow(row)
    ensures forall row :: row in AllRows(os) ==> WellFormedRow(row) && row.filing.cik in Successful(ciks, os)
  {
    if |os| > 0 {
      var n := |os| - 1;
      var prev, o := os[..n], os[n];
      forall k | 0 <= k < n ensures prev[k] == os[k] { }
      AllRowsWellFormed(ciks, prev);
      assert os == prev + [o];
      ViewsStep(ciks, prev, o);
    }
  }

  /**
    What a completed run reports: its spreadsheet rows are well formed and
    come from successful CIKs; the new filings are exactly the rows filed
    after the cutoff Friday; the form breakdown counts them exactly, most
    frequent first.
   */
  lemma CompletedReport(cikFile: Option<seq<string>>, fetch: (nat, string) -> Response, now: DateTime)
    requires RunSpec(cikFile, fetch, now).Completed?
    ensures var rep := RunSpec(cikFile, fetch, now).report;
      && |rep.rows| > 0
      && (forall row :: row in rep.rows ==> WellFormedRow(row) && row.filing.cik in rep.successful)
      && rep.cutoff == PreviousFriday(now)
      && (forall d :: d in rep.newFilings ==> d.row in rep.rows && d.filed.Some? && d.filed.value.day > rep.cutoff.day)
      && DistinctForms(rep.formCounts) && NonIncreasing(rep.formCounts)
      && CountsOf(rep.formCounts, FormsOf(rep.newFilings))
      && Total(rep.formCounts) == |rep.newFilings|
  {
    AnswersWellFormed(fetch);
    CompletedOnCiks(LoadCiks(cikFile.value), Answers(fetch), now);
  }

  lemma CompletedOnCiks(ciks: seq<string>, step: Step, now: DateTime)
    requires KeepsWellFormedRows(step)
    requires RunOnCiks(ciks, step, now).Completed?
    ensures var rep := RunOnCiks(ciks, step, now).report;
      && |rep.rows| > 0
      && (forall row :: row in rep.rows ==> WellFormedRow(row) && row.filing.cik in rep.successful)
      && rep.cutoff == PreviousFriday(now)
      && (forall d :: d in rep.newFilings ==> d.row in rep.rows && d.filed.Some? && d.filed.value.day > rep.cutoff.day)
      && DistinctForms(rep.formCounts) && NonIncreasing(rep.formCounts)
      && CountsOf(rep.formCounts, FormsOf(rep.newFilings))
      && Total(rep.formCounts) == |rep.newFilings|
  {
    var c := Collect(ciks, step);
    CollectSpec(ciks, step);
    forall k | 0 <= k < |c.outcomes|
      ensures forall row :: row in RowsOf(c.outcomes[k]) ==> row.filing.cik == ciks[k] && WellFormedRow(row)
    {
      assert step(k, ciks[k]) == Ok(c.outcomes[k]);
    }
    AllRowsWellFormed(ciks, c.outcomes);
    var rows := AllRows(c.outcomes);
    NewFilingsSince(rows, now);
    var sinceCutoff := NewFilings(ParseDates(rows).value, PreviousFriday(now));
    CountByFormSpec(FormsOf(sinceCutoff));
  }

  /** Every new filing is a row of the spreadsheet with a date, a day after the cutoff Friday. */
  lemma NewFilingsSince(rows: seq<ReportRow>, now: DateTime)
    requires ParseDates(rows).Ok?
    ensures var cutoff := PreviousFriday(now);
      forall d :: d in NewFilings(ParseDates(rows).value, cutoff) ==> d.row in rows && d.filed.Some? && d.filed.value.day > cutoff.day
  {
    var dated := ParseDates(rows).value;
    var cutoff := PreviousFriday(now);
    forall d | d in NewFilings(dated, cutoff) ensures d.row in rows && d.filed.Some? && d.filed.value.day > cutoff.day {
      assert d in dated && IsNewSince(cutoff, d);
      var j :| 0 <= j < |dated| && dated[j] == d;
      assert d.row == rows[j] && d.filed == Moment(ParseFilingDate(rows[j].filing.filingDate));
      assert d.filed.value == DateTime(d.filed.value.day, Midnight);
      FilingDayVersusCutoff(d.filed.value.day, now);
    }
  }

  /** A company record with three recent filings, the second of an excluded form. */
  const ThreeFilings := Submission(
    Some("Example Corp"),
    Some(FilingsMember(Some(Recent(
      Some(["0001-24-1", "0001-24-2", "0001-24-3"]),
      Some(["2024-01-10", "2024-01-11", "2024-01-12"]),
      None,
      Some(["10-K", "4", "8-K"]),
      None,
      Some(["a.htm", "b.htm", "c.htm"]))))),
    0)

  /** Of three filings whose middle one has an excluded form, the filter keeps two. */
  lemma FilterKeepsTwo(fs: seq<Filing>)
    requires |fs| == 3 && fs[0].form == "10-K" && fs[1].form == "4" && fs[2].form == "8-K"
    ensures |FilterForms(fs)| == 2
  {
    assert "10-K" !in ExcludedForms && "8-K" !in ExcludedForms;
    assert fs == [fs[0]] + [fs[1]] + [fs[2]];
    FilterAppend([fs[0]] + [fs[1]], [fs[2]], IsReported);
    FilterAppend([fs[0]], [fs[1]], IsReported);
    assert Filter([fs[0]], IsReported) == [fs[0]] by { assert [fs[0]][..0] == []; }
    assert Filter([fs[1]], IsReported) == [] by { assert [fs[1]][..0] == []; }
    assert Filter([fs[2]], IsReported) == [fs[2]] by { assert [fs[2]][..0] == []; }
  }

  /** The first CIK's answer keeps two of its three filings. */
  lemma ThreeFilingsKeepTwo(cik: string)
    ensures ProcessCik(cik, Response(200, Some(ThreeFilings))).Ok?
    ensures ProcessCik(cik, Response(200, Some(ThreeFilings))).value.Fetched?
    ensures |ProcessCik(cik, Response(200, Some(ThreeFilings))).value.rows| == 2
  {
    var recent := RecentOf(ThreeFilings);
    BuildFilingsSpec(cik, "Example Corp", recent);
    var fs := BuildFilings(cik, "Example Corp", recent).value;
    FilterKeepsTwo(fs);
  }

  /** A 404 puts the CIK on the failed list with the message the fetch printed. */
  lemma NotFound(cik: string, r: Response)
    requires r.status == 404
    ensures ProcessCik(cik, r) == Ok(NoData(Some("Data not found for CIK " + cik + " (404).")))
  {
  }

  /**
    Two CIKs, the first answering with three filings of which one has an
    excluded form, the second answering 404: the spreadsheet has two rows,
    the first CIK succeeded, the second failed, and the log holds the 404
    message for the second.
   */
  lemma TwoCikScenario(a: string, b: string, fetch: (nat, string) -> Response)
    requires fetch(0, a) == Response(200, Some(ThreeFilings))
    requires fetch(1, b).status == 404
    ensures var c := Collect([a, b], Answers(fetch));
      && c.error.None?
      && |AllRows(c.outcomes)| == 2
      && Successful([a, b], c.outcomes) == [a]
      && Failed([a, b], c.outcomes) == [b]
      && FailureLines(c.outcomes) == ["Data not found for CIK " + b + " (404).", "\n"]
  {
    ThreeFilingsKeepTwo(a);
    NotFound(b, fetch(1, b));
    var step := Answers(fetch);
    assert step(0, a) == ProcessCik(a, fetch(0, a)) && step(1, b) == ProcessCik(b, fetch(1, b));
    CollectTwo(a, b, step);
    TwoViews(a, b, step(0, a).value, step(1, b).value);
  }

  /** Two CIKs that both go through are processed in turn. */
  lemma CollectTwo(a: string, b: string, step: Step)
    requires step(0, a).Ok? && step(1, b).Ok?
    ensures Collect([a, b], step) == Collected([step(0, a).value, step(1, b).value], None)
  {
    assert [a][..0] == [];
    assert [a, b][..1] == [a];
  }

  /** The views of two outcomes are those of the first followed by those of the second. */
  lemma TwoViews(a: string, b: string, o0: CikOutcome, o1: CikOutcome)
    ensures AllRows([o0, o1]) == RowsOf(o0) + RowsOf(o1)
    ensures Successful([a, b], [o0, o1]) == (if o0.Fetched? then [a] else []) + (if o1.Fetched? then [b] else [])
    ensures Failed([a, b], [o0, o1]) == (if o0.NoData? then [a] else []) + (if o1.NoData? then [b] else [])
    ensures FailureLines([o0, o1]) == Printed(o0) + Printed(o1)
  {
    ViewsStep([a, b], [], o0);
    assert [] + [o0] == [o0];
    ViewsStep([a, b], [o0], o1);
    assert [o0] + [o1] == [o0, o1];
  }
}
