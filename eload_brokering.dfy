/**
 * Brokering an ELOAD: reading the `bcftools norm` summary of each normalised
 * VCF, deciding whether every sample reached BioSamples, whether brokering is
 * complete, and from which date the archived data become public.  The norm log
 * is its sequence of lines; the metadata, BioSamples answers and today's date
 * are parameters.
 */
module EloadBrokering {
  import opened Wrappers
  import opened Text
  import opened JsonValues
  import opened SubmissionConfig
  import opened XlsxValidation

  // ---------------------------------------------------------------------
  // The bcftools norm report

  const NormPrefix: string := "Lines   total/split/realigned/skipped:"

  predicate IsSummary(line: string)
  {
    StartsWith(line, NormPrefix)
  }

  /** The '/'-separated fields of the summary line's last word. */
  function SummaryFields(line: string): seq<string>
  {
    var w := Words(Strip(line));
    if w == [] then [] else Split(w[|w| - 1], '/')
  }

  /** The errors collected so far and the count fields of the latest summary line, if any. */
  datatype NormScan = NormScan(errors: seq<string>, counts: Option<seq<string>>)

  /**
   * The loop over the log: a summary line replaces the counts, unpacking its
   * four fields (ValueError if there are not four); any other line is an error.
   */
  function Scan(lines: seq<string>): Result<NormScan>
  {
    if lines == [] then Ok(NormScan([], None))
    else
      var line := lines[|lines| - 1];
      match Scan(lines[..|lines| - 1])
      case Err(e) => Err(e)
      case Ok(st) =>
        if IsSummary(line) then
          if |SummaryFields(line)| == 4 then Ok(st.(counts := Some(SummaryFields(line)))) else Err("ValueError")
        else Ok(st.(errors := st.errors + [Strip(line)]))
  }

  /** What `parse_bcftools_norm_report` returns. */
  datatype NormCounts = NormCounts(errors: seq<string>, total: int, split: int, realigned: int, skipped: int)

  /** The counts as integers: 0 each when there was no summary line; ValueError for a field that is not one. */
  function ToCounts(st: NormScan): Result<NormCounts>
  {
    match st.counts
    case None => Ok(NormCounts(st.errors, 0, 0, 0, 0))
    case Some(f) =>
      if |f| != 4 then Err("ValueError")
      else
        var t, s, r, k := ParseInt(f[0]), ParseInt(f[1]), ParseInt(f[2]), ParseInt(f[3]);
        if t.None? || s.None? || r.None? || k.None? then Err("ValueError")
        else Ok(NormCounts(st.errors, t.value, s.value, r.value, k.value))
  }

  function NormReport(lines: seq<string>): Result<NormCounts>
  {
    match Scan(lines)
    case Err(e) => Err(e)
    case Ok(st) => ToCounts(st)
  }

  /** The lines other than summary lines, stripped, in order. */
  function OtherLines(lines: seq<string>): seq<string>
  {
    if lines == [] then []
    else
      var line := lines[|lines| - 1];
      OtherLines(lines[..|lines| - 1]) + (if IsSummary(line) then [] else [Strip(line)])
  }

  /** The index of the last summary line. */
  function LastSummary(lines: seq<string>): (r: Option<nat>)
    ensures r.Some? ==> (r.value < |lines| && IsSummary(lines[r.value]) &&
      forall j :: r.value < j < |lines| ==> !IsSummary(lines[j]))
    ensures r.None? ==> forall j :: 0 <= j < |lines| ==> !IsSummary(lines[j])
  {
    if lines == [] then None
    else if IsSummary(lines[|lines| - 1]) then Some(|lines| - 1)
    else
      var r := LastSummary(lines[..|lines| - 1]);
      assert forall j :: 0 <= j < |lines| - 1 ==> lines[..|lines| - 1][j] == lines[j];
      r
  }

  /** The count fields the last summary line gives, if there is one. */
  function LastCounts(lines: seq<string>): Option<seq<string>>
  {
    match LastSummary(lines)
    case None => None
    case Some(k) => Some(SummaryFields(lines[k]))
  }

  /** A line the scan accepts: not a summary line, or one with four count fields. */
  predicate Acceptable(line: string)
  {
    IsSummary(line) ==> |SummaryFields(line)| == 4
  }

  /** Every line is one the scan accepts. */
  predicate AllAcceptable(lines: seq<string>)
  {
    forall j :: 0 <= j < |lines| ==> Acceptable(lines[j])
  }

  lemma AllAcceptableSnoc(init: seq<string>, line: string)
    ensures AllAcceptable(init + [line]) <==> AllAcceptable(init) && Acceptable(line)
  {
    var lines := init + [line];
    assert forall j :: 0 <= j < |init| ==> lines[j] == init[j];
    assert lines[|init|] == line;
  }

  /** The scan fails exactly when some summary line does not have four fields. */
  lemma {:induction false} ScanSucceeds(lines: seq<string>)
    ensures Scan(lines).Ok? <==> AllAcceptable(lines)
  {
    if lines != [] {
      var init, last := lines[..|lines| - 1], lines[|lines| - 1];
      ScanSucceeds(init);
      assert lines == init + [last];
      AllAcceptableSnoc(init, last);
      assert Scan(lines).Ok? <==> Scan(init).Ok? && Acceptable(last);
    }
  }

  /** The errors of a successful scan are the other lines, stripped, in order. */
  lemma {:induction false} ScanErrors(lines: seq<string>)
    ensures Scan(lines).Ok? ==> Scan(lines).value.errors == OtherLines(lines)
  {
    if lines != [] {
      ScanErrors(lines[..|lines| - 1]);
    }
  }

  /** The counts of a successful scan are those of the last summary line: the last one wins. */
  lemma {:induction false} ScanCounts(lines: seq<string>)
    ensures Scan(lines).Ok? ==> Scan(lines).value.counts == LastCounts(lines)
  {
    if lines != [] {
      var init := lines[..|lines| - 1];
      ScanCounts(init);
      if !IsSummary(lines[|lines| - 1]) && LastSummary(init).Some? {
        var k := LastSummary(init).value;
        assert init[k] == lines[k];
      }
    }
  }

  /** A log without a summary line gives zero counts, and every line is an error. */
  lemma NormReportWithoutSummary(lines: seq<string>)
    requires forall j :: 0 <= j < |lines| ==> !IsSummary(lines[j])
    ensures NormReport(lines) == Ok(NormCounts(OtherLines(lines), 0, 0, 0, 0))
    ensures |OtherLines(lines)| == |lines|
  {
    ScanSucceeds(lines);
    ScanErrors(lines);
    ScanCounts(lines);
    OtherLinesLength(lines);
  }

  lemma {:induction false} OtherLinesLength(lines: seq<string>)
    requires forall j :: 0 <= j < |lines| ==> !IsSummary(lines[j])
    ensures |OtherLines(lines)| == |lines|
  {
    if lines != [] {
      OtherLinesLength(lines[..|lines| - 1]);
    }
  }

  /** `parse_bcftools_norm_report` over the lines of the log. */
  method ParseBcftoolsNormReport(lines: seq<string>) returns (r: Result<NormCounts>)
    ensures r == NormReport(lines)
  {
    var errors: seq<string> := [];
    var counts: Option<seq<string>> := None;
    for i := 0 to |lines|
      invariant Scan(lines[..i]) == Ok(NormScan(errors, counts))
    {
      assert lines[..i + 1][..i] == lines[..i];
      var line := lines[i];
      if StartsWith(line, NormPrefix) {
        var fields := SummaryFields(line);
        if |fields| != 4 {
          ScanFailsOnward(lines, i + 1);
          return Err("ValueError");
        }
        counts := Some(fields);
      } else {
        errors := errors + [Strip(line)];
      }
    }
    assert lines[..|lines|] == lines;
    r := ToCounts(NormScan(errors, counts));
  }

  /** Once the scan has failed it stays failed. */
  lemma {:induction false} ScanFailsOnward(lines: seq<string>, n: nat)
    requires n <= |lines| && Scan(lines[..n]) == Err("ValueError")
    ensures Scan(lines) == Err("ValueError")
    decreases |lines| - n
  {
    if n < |lines| {
      assert lines[..n + 1][..n] == lines[..n];
      ScanFailsOnward(lines, n + 1);
    } else {
      assert lines[..n] == lines;
    }
  }

  // ---------------------------------------------------------------------
  // BioSamples

  /** The sample names that received no accession. */
  function Missing(names: seq<string>, accessions: map<string, string>): (r: seq<string>)
    ensures forall x :: x in r <==> x in names && x !in accessions
  {
    if names == [] then []
    else (if names[0] in accessions then [] else [names[0]]) + Missing(names[1..], accessions)
  }

  /** Brokering to BioSamples passed: some accessions came back, and every sample has one. */
  predicate BioSamplesPassed(accessions: map<string, string>, names: seq<string>)
  {
    accessions != map[] && forall i :: 0 <= i < |names| ==> names[i] in accessions
  }

  /** What `upload_to_bioSamples` records under `brokering/Biosamples`; `dated` when it also records the date. */
  datatype BioSamplesRecord = BioSamplesRecord(pass: bool, samples: map<string, string>, dated: bool)

  /** How the metadata stands before the upload. */
  datatype SampleSource = NoMetadata | Metadata(submitDone: bool, knownAccessions: map<string, string>, names: seq<string>)

  /**
   * `upload_to_bioSamples`: nothing without metadata; accessions already in
   * the metadata pass as they are; an earlier successful brokering is kept;
   * otherwise the submission's answer is recorded, and ValueError raised
   * unless every sample was accessioned.
   */
  function UploadToBioSamples(source: SampleSource, recordedBefore: bool, submitted: map<string, string>): (Option<BioSamplesRecord>, Option<string>)
  {
    match source
    case NoMetadata => (None, None)
    case Metadata(done, known, names) =>
      if done then (Some(BioSamplesRecord(true, known, false)), None)
      else if recordedBefore then (None, None)
      else
        var passed := BioSamplesPassed(submitted, names);
        (Some(BioSamplesRecord(passed, submitted, true)), if passed then None else Some("ValueError"))
  }

  /**
   * The upload raises exactly when it records a failed brokering, which
   * happens when nothing came back or some sample is missing.
   */
  lemma UploadRaisesOnMissing(source: SampleSource, recordedBefore: bool, submitted: map<string, string>)
    ensures var (record, error) := UploadToBioSamples(source, recordedBefore, submitted);
      (error.Some? <==> record.Some? && !record.value.pass) &&
      (source.Metadata? && !source.submitDone && !recordedBefore ==>
        record.Some? && record.value.samples == submitted &&
        (error.Some? <==> submitted == map[] || Missing(source.names, submitted) != []))
  {
    if source.Metadata? && !source.submitDone && !recordedBefore {
      var names := source.names;
      if Missing(names, submitted) != [] {
        var x := Missing(names, submitted)[0];
        assert x in Missing(names, submitted);
      }
      if !BioSamplesPassed(submitted, names) && submitted != map[] {
        var i :| 0 <= i < |names| && names[i] !in submitted;
        assert names[i] in Missing(names, submitted);
      }
    }
  }

  // ---------------------------------------------------------------------
  // Completion and the archival date

  function PassOf(content: map<string, Json>, key: string): bool
  {
    var v := Get(content, ["brokering", key, "pass"]);
    v.Some? && Truthy(v.value)
  }

  /** `_brokering_complete`: both the ENA and the BioSamples brokering passed. */
  function BrokeringComplete(content: map<string, Json>): (r: bool)
    ensures r <==> PassOf(content, "ena") && PassOf(content, "Biosamples")
  {
    var flags := [PassOf(content, "ena"), PassOf(content, "Biosamples")];
    assert flags[0] && flags[1] ==> forall i | 0 <= i < |flags| :: flags[i];
    forall i | 0 <= i < |flags| :: flags[i]
  }

  datatype Date = Date(year: int, month: int, day: int)

  predicate ValidDate(d: Date)
  {
    1 <= d.year <= 9999 && 1 <= d.month <= 12 && 1 <= d.day <= DaysIn(d.year, d.month)
  }

  predicate Before(a: Date, b: Date)
  {
    a.year < b.year || (a.year == b.year && (a.month < b.month || (a.month == b.month && a.day < b.day)))
  }

  /** The following day; OverflowError after 9999-12-31. */
  function NextDay(d: Date): Result<Date>
  {
    if d.day < DaysIn(d.year, d.month) then Ok(Date(d.year, d.month, d.day + 1))
    else if d.month < 12 then Ok(Date(d.year, d.month + 1, 1))
    else if d.year < 9999 then Ok(Date(d.year + 1, 1, 1))
    else Err("OverflowError")
  }

  /** The following day is the earliest valid date after `d`. */
  lemma NextDayIsNext(d: Date, e: Date)
    requires ValidDate(d) && NextDay(d).Ok? && ValidDate(e) && Before(d, e)
    ensures ValidDate(NextDay(d).value) && Before(d, NextDay(d).value)
    ensures !Before(e, NextDay(d).value)
  {
  }

  /** Only the last day of 9999 has no following day. */
  lemma NextDayOverflow(d: Date)
    requires ValidDate(d)
    ensures NextDay(d).Err? <==> d == Date(9999, 12, 31)
  {
  }

  /** `date + timedelta(days=n)`. */
  function PlusDays(d: Date, n: nat): Result<Date>
    decreases n
  {
    if n == 0 then Ok(d)
    else
      match NextDay(d)
      case Err(e) => Err(e)
      case Ok(next) => PlusDays(next, n - 1)
  }

  /** The brokering date: the date part of the recorded text, or today when it is absent or does not parse. */
  function BrokeringDate(recorded: Option<string>, today: Date): (r: Date)
    ensures ValidDate(today) ==> ValidDate(r)
  {
    if recorded.None? then today
    else
      var s := Strip(Split(recorded.value, ' ')[0]);
      if FullDate(s) then
        assert DateStrFormat(s);
        var p := DateParts(s);
        Date(p.0, p.1, p.2)
      else today
  }

  /** `strftime("%Y-%m-%d")`. */
  function FormatDate(d: Date): string
  {
    ZeroPadded(d.year, 4) + "-" + ZeroPadded(d.month, 2) + "-" + ZeroPadded(d.day, 2)
  }

  /** The hold date as the configuration holds it: absent, a date, or text. */
  datatype HoldDate = NoHold | HoldOn(date: Date) | HoldText(text: string)

  /** The public availability date: the hold date when there is one, else three days after brokering. */
  function AvailableDate(hold: HoldDate, recorded: Option<string>, today: Date): Result<string>
  {
    match hold
    case HoldOn(d) => Ok(FormatDate(d))
    case HoldText(t) => Ok(Split(t, ' ')[0])
    case NoHold =>
      match PlusDays(BrokeringDate(recorded, today), 3)
      case Err(e) => Err(e)
      case Ok(d) => Ok(FormatDate(d))
  }

  /** Without a hold date, the data become public on the third day after the brokering date. */
  lemma AvailableThreeDaysLater(recorded: Option<string>, today: Date)
    requires ValidDate(today)
    ensures var b := BrokeringDate(recorded, today);
      NextDay(b).Ok? && NextDay(NextDay(b).value).Ok? && NextDay(NextDay(NextDay(b).value).value).Ok? ==>
        AvailableDate(NoHold, recorded, today) == Ok(FormatDate(NextDay(NextDay(NextDay(b).value).value).value))
  {
  }

  /** The archival confirmation, when brokering is complete. */
  datatype Archival = NotArchived | Archived(availableDate: string, nonHumanNote: bool)

  /**
   * `_archival_confirmation_text`: 'NA' until both brokerings passed; then
   * the availability date, and the note on non-human data unless the
   * taxonomy is 9606.
   */
  function ArchivalConfirmation(content: map<string, Json>, hold: HoldDate, recorded: Option<string>, taxonomy: Option<int>, today: Date): (r: Result<Archival>)
    ensures !BrokeringComplete(content) <==> r == Ok(NotArchived)
    ensures r.Ok? && r.value.Archived? ==> (r.value.nonHumanNote <==> taxonomy != Some(9606))
  {
    if !BrokeringComplete(content) then Ok(NotArchived)
    else
      match AvailableDate(hold, recorded, today)
      case Err(e) => Err(e)
      case Ok(date) => Ok(Archived(date, taxonomy != Some(9606)))
  }
}
