/**
  One CIK's part of a run: classifying the HTTP answer of the submissions
  endpoint, turning the parallel arrays of `filings.recent` into rows,
  dropping the excluded form types and deriving each filing's index URL.
  The HTTP request and JSON decoding are outside the model: a response is
  its status code and, when the body is a JSON object, the members of it
  that the scraper reads.
 */
module Filings {
  import opened Seqs
  import opened Decimal
  import opened CikLoader

  /** The parallel arrays of `filings.recent`; a member the JSON lacks is None. */
  datatype Recent = Recent(
    accessionNumber: Option<seq<string>>,
    filingDate: Option<seq<string>>,
    reportDate: Option<seq<string>>,
    form: Option<seq<string>>,
    fileNumber: Option<seq<string>>,
    primaryDocument: Option<seq<string>>)

  const NoRecent := Recent(None, None, None, None, None, None)

  /** The `filings` member of a submission; `recent` is None when it lacks one. */
  datatype FilingsMember = FilingsMember(recent: Option<Recent>)

  /**
    A decoded submissions document: its `name` and `filings` members, and how
    many other members it has (which only matter for whether it is empty).
   */
  datatype Submission = Submission(name: Option<string>, filings: Option<FilingsMember>, otherMembers: nat)

  /** An HTTP answer; `body` is None when the body is not a JSON object. */
  datatype Response = Response(status: int, body: Option<Submission>)

  /** How `fetch_sec_data` classifies an answer. */
  datatype FetchResult = Data(submission: Submission, companyName: string) | NotFound | OtherFailure(status: int)

  /** The exceptions that end a run early. */
  datatype RunError =
    | CikFileUnreadable
    | BodyNotJson(cik: string)
    | MissingKey(key: string)
    | LengthMismatch(cik: string)
    | MissingColumn(column: string)
    | BadFilingDate(value: string)

  const UnknownCompany := "Unknown Company"

  /**
    `fetch_sec_data`: only status 200 yields data, whose company name is the
    `name` member or "Unknown Company"; decoding a 200 body that is not a
    JSON object raises.
   */
  function FetchSecData(cik: string, r: Response): Result<FetchResult, RunError> {
    if r.status == 200 then
      match r.body
      case None => Err(BodyNotJson(cik))
      case Some(sub) => Ok(Data(sub, sub.name.GetOr(UnknownCompany)))
    else if r.status == 404 then Ok(NotFound)
    else Ok(OtherFailure(r.status))
  }

  /** What `fetch_sec_data` prints about an answer that yields no data. */
  function FailureMessage(cik: string, f: FetchResult): Option<string> {
    match f
    case Data(_, _) => None
    case NotFound => Some("Data not found for CIK " + cik + " (404).")
    case OtherFailure(status) => Some("Failed to fetch data for CIK " + cik + ". Status code: " + IntToString(status))
  }

  /** The three outcomes of a fetch, decided by the status code alone. */
  lemma FetchClassification(cik: string, r: Response)
    ensures r.status == 200 && r.body.None? <==> FetchSecData(cik, r) == Err(BodyNotJson(cik))
    ensures r.status == 200 && r.body.Some? <==>
      FetchSecData(cik, r).Ok? && FetchSecData(cik, r).value.Data?
    ensures r.status == 200 && r.body.Some? ==>
      FetchSecData(cik, r).value.submission == r.body.value
      && (r.body.value.name.Some? ==> FetchSecData(cik, r).value.companyName == r.body.value.name.value)
      && (r.body.value.name.None? ==> FetchSecData(cik, r).value.companyName == UnknownCompany)
    ensures r.status == 404 <==> FetchSecData(cik, r) == Ok(NotFound)
    ensures r.status != 200 && r.status != 404 <==> FetchSecData(cik, r) == Ok(OtherFailure(r.status))
    ensures FetchSecData(cik, r).Ok? ==> (FailureMessage(cik, FetchSecData(cik, r).value).Some? <==> r.status != 200)
  {
  }

  /** `if sec_data:` — a decoded JSON object is false when it has no members. */
  predicate IsNonEmpty(sub: Submission) {
    sub.name.Some? || sub.filings.Some? || sub.otherMembers > 0
  }

  /** `sec_data.get('filings', {}).get('recent', {})`. */
  function RecentOf(sub: Submission): Recent {
    match sub.filings
    case None => NoRecent
    case Some(f) => f.recent.GetOr(NoRecent)
  }

  /** One row of the per-CIK table, in the column order of the spreadsheet. */
  datatype Filing = Filing(
    companyName: string,
    cik: string,
    accessionNumber: string,
    combinedFileNumber: string,
    filingDate: string,
    reportDate: string,
    form: string,
    secFileNumber: string,
    primaryDocument: string)

  /** A filing with its derived `Filing URL` column. */
  datatype ReportRow = ReportRow(filing: Filing, url: string)

  const NotAvailable := "N/A"

  function Repeat(x: string, n: nat): (r: seq<string>)
    ensures |r| == n && forall k :: 0 <= k < n ==> r[k] == x
  {
    seq(n, k => x)
  }

  /** `f"{cik}-{acc_num}"`. */
  function CombinedFileNumber(cik: string, accession: string): string {
    cik + "-" + accession
  }

  /**
    The `pd.DataFrame({...})` of one CIK, built when `accessionNumber` is
    present: indexing a missing `filingDate`, `form` or `primaryDocument`
    raises in that order, a missing `reportDate` or `fileNumber` becomes
    "N/A" in every row, and columns of different lengths raise.
   */
  function BuildFilings(cik: string, companyName: string, recent: Recent): Result<seq<Filing>, RunError>
    requires recent.accessionNumber.Some?
  {
    var acc := recent.accessionNumber.value;
    var n := |acc|;
    if recent.filingDate.None? then Err(MissingKey("filingDate"))
    else if recent.form.None? then Err(MissingKey("form"))
    else if recent.primaryDocument.None? then Err(MissingKey("primaryDocument"))
    else
      var filed, forms, docs := recent.filingDate.value, recent.form.value, recent.primaryDocument.value;
      var reported := recent.reportDate.GetOr(Repeat(NotAvailable, n));
      var fileNumbers := recent.fileNumber.GetOr(Repeat(NotAvailable, n));
      if |filed| != n || |reported| != n || |forms| != n || |fileNumbers| != n || |docs| != n then
        Err(LengthMismatch(cik))
      else
        Ok(seq(n, k requires 0 <= k < n =>
          Filing(companyName, cik, acc[k], CombinedFileNumber(cik, acc[k]), filed[k],
                 reported[k], forms[k], fileNumbers[k], docs[k])))
  }

  /** Every array that is present has one entry per accession number. */
  predicate SameLengths(recent: Recent)
    requires recent.accessionNumber.Some?
  {
    var n := |recent.accessionNumber.value|;
    && (recent.filingDate.Some? ==> |recent.filingDate.value| == n)
    && (recent.reportDate.Some? ==> |recent.reportDate.value| == n)
    && (recent.form.Some? ==> |recent.form.value| == n)
    && (recent.fileNumber.Some? ==> |recent.fileNumber.value| == n)
    && (recent.primaryDocument.Some? ==> |recent.primaryDocument.value| == n)
  }

  /**
    The table has one row per accession number exactly when the three
    required arrays exist and all arrays agree in length; every row carries
    the same company name and CIK, row k the k-th entry of each array, the
    combined key "cik-accession", and "N/A" for an absent optional array.
   */
  lemma BuildFilingsSpec(cik: string, companyName: string, recent: Recent)
    requires recent.accessionNumber.Some?
    ensures var r := BuildFilings(cik, companyName, recent);
      && (r.Ok? <==> recent.filingDate.Some? && recent.form.Some? && recent.primaryDocument.Some? && SameLengths(recent))
      && (recent.filingDate.None? ==> r == Err(MissingKey("filingDate")))
      && (recent.filingDate.Some? && recent.form.None? ==> r == Err(MissingKey("form")))
      && (recent.filingDate.Some? && recent.form.Some? && recent.primaryDocument.None? ==>
            r == Err(MissingKey("primaryDocument")))
      && (r.Err? ==> r.error.MissingKey? || r.error == LengthMismatch(cik))
    ensures var r := BuildFilings(cik, companyName, recent);
      var acc := recent.accessionNumber.value;
      r.Ok? ==>
        && |r.value| == |acc|
        && forall k :: 0 <= k < |acc| ==>
          && r.value[k].companyName == companyName
          && r.value[k].cik == cik
          && r.value[k].accessionNumber == acc[k]
          && r.value[k].combinedFileNumber == cik + "-" + acc[k]
          && r.value[k].filingDate == recent.filingDate.value[k]
          && r.value[k].form == recent.form.value[k]
          && r.value[k].primaryDocument == recent.primaryDocument.value[k]
          && r.value[k].reportDate == (if recent.reportDate.Some? then recent.reportDate.value[k] else NotAvailable)
          && r.value[k].secFileNumber == (if recent.fileNumber.Some? then recent.fileNumber.value[k] else NotAvailable)
  {
  }

  /** The combined key splits back into the CIK and the accession number. */
  lemma CombinedFileNumberSplits(cik: string, accession: string)
    ensures var c := CombinedFileNumber(cik, accession);
      |c| == |cik| + 1 + |accession| && c[..|cik|] == cik && c[|cik|] == '-' && c[|cik| + 1..] == accession
  {
    var c := CombinedFileNumber(cik, accession);
    assert c[..|cik|] == cik;
    assert c[|cik| + 1..] == accession;
  }

  /** The ownership and beneficial-ownership forms and their amendments. */
  const ExcludedForms: seq<string> := ["3", "4", "144", "13G", "3/A", "4/A", "144/A", "13G/A", "SC 13G", "SC 13G/A"]

  predicate IsReported(f: Filing) {
    f.form !in ExcludedForms
  }

  /** `df[~df['Form'].isin(excluded_forms)]`. */
  function FilterForms(rows: seq<Filing>): seq<Filing> {
    Filter(rows, IsReported)
  }

  /**
    The filter removes exactly the rows whose form is one of the ten codes
    (compared as whole, case-sensitive strings) and keeps every other row as
    often as it occurred.
   */
  lemma FormFilterSpec(rows: seq<Filing>)
    ensures forall f :: f in FilterForms(rows) <==> f in rows && f.form !in ExcludedForms
    ensures forall f :: multiset(FilterForms(rows))[f] == if f.form in ExcludedForms then 0 else multiset(rows)[f]
  {
    forall f ensures multiset(FilterForms(rows))[f] == if f.form in ExcludedForms then 0 else multiset(rows)[f] {
      FilterMultiplicity(rows, IsReported, f);
    }
  }

  /** The rows that stay keep their relative order: the k-th kept row is the k-th reported position. */
  lemma FormFilterOrder(rows: seq<Filing>)
    ensures StrictlyIncreasing(KeptIndices(rows, IsReported))
    ensures |FilterForms(rows)| == |KeptIndices(rows, IsReported)|
    ensures forall k :: 0 <= k < |FilterForms(rows)| ==> FilterForms(rows)[k] == rows[KeptIndices(rows, IsReported)[k]]
    ensures forall j :: 0 <= j < |rows| ==> (j in KeptIndices(rows, IsReported) <==> IsReported(rows[j]))
  {
    FilterIndices(rows, IsReported);
  }

  /** Filtering twice is filtering once. */
  lemma FormFilterIdempotent(rows: seq<Filing>)
    ensures FilterForms(FilterForms(rows)) == FilterForms(rows)
  {
    FilterIdempotent(rows, IsReported);
  }

  /** The amendments and the "SC" forms are matched only as written: "4/a" and "13G " stay. */
  lemma FormMatchIsExact()
    ensures "4/A" in ExcludedForms && "SC 13G/A" in ExcludedForms
    ensures "4/a" !in ExcludedForms && "13G " !in ExcludedForms && "10-K" !in ExcludedForms
  {
  }

  predicate NotHyphen(c: char) {
    c != '-'
  }

  /** `accession.replace('-', '')`. */
  function RemoveHyphens(accession: string): string {
    Filter(accession, NotHyphen)
  }

  const ArchiveBase := "https://www.sec.gov/Archives/edgar/data/"
  const IndexSuffix := "-index.html"

  /** The `Filing URL` lambda. */
  function FilingUrl(cik: string, accession: string): string {
    ArchiveBase + StripLeadingZeros(cik) + "/" + RemoveHyphens(accession) + "/" + accession + IndexSuffix
  }

  /**
    The URL is the archive base, the CIK without leading zeros (so that
    segment never starts with '0'), the accession number with every '-'
    removed and nothing else changed, and the accession number's index page.
   */
  lemma FilingUrlSpec(cik: string, accession: string)
    ensures var seg := StripLeadingZeros(cik);
      var folder := RemoveHyphens(accession);
      && FilingUrl(cik, accession) == ArchiveBase + seg + "/" + folder + "/" + accession + IndexSuffix
      && (seg == [] || seg[0] != '0')
      && cik == Zeros(|cik| - |seg|) + seg
      && '-' !in folder
      && (forall c :: c != '-' ==> multiset(folder)[c] == multiset(accession)[c])
      && |folder| == |KeptIndices(accession, NotHyphen)|
      && (forall k :: 0 <= k < |folder| ==> folder[k] == accession[KeptIndices(accession, NotHyphen)[k]])
  {
    StripZerosSplit(cik);
    RemoveHyphensSpec(accession);
  }

  /** Removing the hyphens keeps every other character, with its multiplicity and order. */
  lemma RemoveHyphensSpec(accession: string)
    ensures var folder := RemoveHyphens(accession);
      && '-' !in folder
      && (forall c :: c != '-' ==> multiset(folder)[c] == multiset(accession)[c])
      && |folder| == |KeptIndices(accession, NotHyphen)|
      && (forall k :: 0 <= k < |folder| ==> folder[k] == accession[KeptIndices(accession, NotHyphen)[k]])
  {
    FilterIndices(accession, NotHyphen);
    forall c | c != '-' ensures multiset(RemoveHyphens(accession))[c] == multiset(accession)[c] {
      FilterMultiplicity(accession, NotHyphen, c);
    }
  }

  /** An example: CIK 0000789019, accession 0001234567-24-000001. */
  lemma FilingUrlExample()
    ensures FilingUrl("0000789019", "0001234567-24-000001")
      == "https://www.sec.gov/Archives/edgar/data/" + "789019" + "/" + "000123456724000001" + "/"
         + "0001234567-24-000001" + "-index.html"
  {
    ExampleCikSegment();
    ExampleFolder();
  }

  lemma ExampleCikSegment()
    ensures StripLeadingZeros("0000789019") == "789019"
  {
    assert Zeros(4) == "0000";
    assert "0000789019" == Zeros(4) + "789019";
    StripZerosPrefix(4, "789019");
    assert "789019"[0] == '7';
  }

  lemma ExampleFolder()
    ensures RemoveHyphens("0001234567-24-000001") == "000123456724000001"
  {
    assert "0001234567-24-000001" == "0001234567" + "-" + "24" + "-" + "000001";
    RemoveHyphensBetween("0001234567", "24", "000001");
    assert "0001234567" + "24" + "000001" == "000123456724000001";
  }

  /** An accession number "p-q-r" loses exactly its two separators. */
  lemma RemoveHyphensBetween(p: string, q: string, r: string)
    requires '-' !in p && '-' !in q && '-' !in r
    ensures RemoveHyphens(p + "-" + q + "-" + r) == p + q + r
  {
    var a := p + "-";
    var b := a + q;
    var c := b + "-";
    KeepAll(p);
    KeepAll(q);
    KeepAll(r);
    assert Filter("-", NotHyphen) == [];
    FilterAppend(p, "-", NotHyphen);
    assert Filter(a, NotHyphen) == p;
    FilterAppend(a, q, NotHyphen);
    assert Filter(b, NotHyphen) == p + q;
    FilterAppend(b, "-", NotHyphen);
    assert Filter(c, NotHyphen) == p + q;
    FilterAppend(c, r, NotHyphen);
  }

  lemma {:induction false} KeepAll(s: string)
    requires '-' !in s
    ensures Filter(s, NotHyphen) == s
  {
    if |s| > 0 {
      KeepAll(s[..|s| - 1]);
      assert s == s[..|s| - 1] + [s[|s| - 1]];
    }
  }

  function WithUrl(f: Filing): ReportRow {
    ReportRow(f, FilingUrl(f.cik, f.accessionNumber))
  }

  /** `df['Filing URL'] = df.apply(...)`: the rows unchanged, each with its URL. */
  function WithUrls(fs: seq<Filing>): (rows: seq<ReportRow>)
    ensures |rows| == |fs|
    ensures forall k :: 0 <= k < |fs| ==>
      rows[k].filing == fs[k] && rows[k].url == FilingUrl(fs[k].cik, fs[k].accessionNumber)
  {
    seq(|fs|, k requires 0 <= k < |fs| => WithUrl(fs[k]))
  }
}
