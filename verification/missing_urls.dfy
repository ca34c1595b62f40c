/** The single-file script: the same audit loop, followed by the five
    counter lines and an unconditional numbered list of the SKUs missing a
    URL. */
module MissingUrls {
  import opened RowAudit
  import opened Listing
  import CsvUrls

  /** The script's final counters and the listing block it prints. */
  datatype Report = Report(stats: Stats, listing: Listing)

  /** The script run on the rows of its file. */
  function CheckMissingUrls(rows: seq<Row>): (r: Report)
    ensures r.stats.total == |rows|
    ensures Consistent(r.stats)
    ensures r.stats.missing == MissingSkus(rows)
    ensures r.listing.NoList? <==> r.stats.missing == []
    ensures !r.listing.TooMany?
    ensures r.listing.Enumerated? ==>
      SkusOf(r.listing.lines) == r.stats.missing && NumberedFromOne(r.listing.lines)
  {
    var s := Audit(rows);
    AuditIsReference(rows);
    Report(s, FullListing(s.missing))
  }

  /** On the same rows this script and `analyze_csv` compute the same four
      counters; their listings agree below the limit, and from the limit on
      this script still enumerates what `analyze_csv` only counts. */
  lemma SameAsAnalyzeCsv(rows: seq<Row>)
    ensures CsvUrls.TotalsOf(CheckMissingUrls(rows).stats) == CsvUrls.AnalyzeCsv(rows).totals
    ensures |MissingSkus(rows)| < ListLimit ==>
      CheckMissingUrls(rows).listing == CsvUrls.AnalyzeCsv(rows).listing
    ensures ListLimit <= |MissingSkus(rows)| ==>
      && CsvUrls.AnalyzeCsv(rows).listing == TooMany(|MissingSkus(rows)|)
      && CheckMissingUrls(rows).listing == Enumerated(Enumerate(MissingSkus(rows), 1))
  {
    AuditIsReference(rows);
    ThresholdVersusFull(MissingSkus(rows));
  }
}
