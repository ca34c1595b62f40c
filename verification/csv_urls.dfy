/** The multi-file script: `analyze_csv` audits one file, reports with the
    three-way listing rule and returns a four-field stats record; the
    script then adds the records of its three files field by field. */
module CsvUrls {
  import opened RowAudit
  import opened Listing

  /** The dict `analyze_csv` returns: `total`, `with_skus`, `with_urls`,
      `with_both` (the missing list is not part of it). */
  datatype Totals = Totals(total: int, withSkus: int, withUrls: int, withBoth: int)

  /** The ordering every audited record satisfies. */
  predicate Ordered(t: Totals)
  {
    && 0 <= t.withBoth <= t.withSkus <= t.total
    && t.withBoth <= t.withUrls <= t.total
  }

  /** The record built from the loop's final counters. */
  function TotalsOf(s: Stats): (t: Totals)
    ensures Consistent(s) ==> Ordered(t)
  {
    Totals(s.total, s.withSkus, s.withUrls, s.withBoth)
  }

  /** What one `analyze_csv` call produces: its returned record and the
      listing block it prints. */
  datatype Analysis = Analysis(totals: Totals, listing: Listing)

  /** `analyze_csv` on the rows of one file. */
  function AnalyzeCsv(rows: seq<Row>): (a: Analysis)
    ensures a.totals.withSkus == Count(rows, HasSku)
    ensures a.totals.withUrls == Count(rows, HasUrl)
    ensures a.totals.withBoth == Count(rows, HasBoth)
    ensures Ordered(a.totals)
    ensures a.listing.NoList? <==> a.totals.withSkus == a.totals.withBoth
    ensures a.listing.Enumerated? <==> 0 < a.totals.withSkus - a.totals.withBoth < ListLimit
    ensures a.listing.TooMany? <==> ListLimit <= a.totals.withSkus - a.totals.withBoth
    ensures a.listing.Enumerated? ==>
      SkusOf(a.listing.lines) == MissingSkus(rows) && NumberedFromOne(a.listing.lines)
    ensures a.listing.TooMany? ==> a.listing.count == a.totals.withSkus - a.totals.withBoth
  {
    var s := Audit(rows);
    AuditIsReference(rows);
    Analysis(TotalsOf(s), ThresholdListing(s.missing))
  }

  /** A file with no data rows: every counter is zero and nothing is listed. */
  lemma EmptyFile()
    ensures AnalyzeCsv([]) == Analysis(Totals(0, 0, 0, 0), NoList)
  {
  }

  /** Ten or more rows that all have a SKU and no URL are reported only by
      their count. */
  lemma AllMissingIsTooMany(rows: seq<Row>)
    requires ListLimit <= |rows|
    requires forall i :: 0 <= i < |rows| ==> MissingUrl(rows[i])
    ensures AnalyzeCsv(rows).listing == TooMany(|rows|)
  {
    AllMissingLength(rows);
    AuditIsReference(rows);
  }

  /** Field-wise sum of two records. */
  function Add(a: Totals, b: Totals): Totals
  {
    Totals(a.total + b.total, a.withSkus + b.withSkus, a.withUrls + b.withUrls, a.withBoth + b.withBoth)
  }

  /** Field-wise sum of any number of records. */
  function Sum(ts: seq<Totals>): Totals
    decreases |ts|
  {
    if ts == [] then Totals(0, 0, 0, 0) else Add(ts[0], Sum(ts[1..]))
  }

  /** Adding ordered records field by field gives an ordered record. */
  lemma {:induction false} SumOrdered(ts: seq<Totals>)
    ensures (forall i :: 0 <= i < |ts| ==> Ordered(ts[i])) ==> Ordered(Sum(ts))
    decreases |ts|
  {
    if ts != [] {
      SumOrdered(ts[1..]);
      if forall i :: 0 <= i < |ts| ==> Ordered(ts[i]) {
        assert Ordered(ts[0]);
        assert forall i :: 0 <= i < |ts[1..]| ==> Ordered(ts[1..][i]);
      }
    }
  }

  /** The grand totals of the script: the three files' records added field
      by field. */
  function GrandTotal(apr: Totals, artec: Totals, bilstein: Totals): (t: Totals)
    ensures Ordered(apr) && Ordered(artec) && Ordered(bilstein) ==> Ordered(t)
  {
    Totals(
      apr.total + artec.total + bilstein.total,
      apr.withSkus + artec.withSkus + bilstein.withSkus,
      apr.withUrls + artec.withUrls + bilstein.withUrls,
      apr.withBoth + artec.withBoth + bilstein.withBoth)
  }

  /** The script's three-file total is the general `Sum` of the records. */
  lemma GrandTotalIsSum(apr: Totals, artec: Totals, bilstein: Totals)
    ensures GrandTotal(apr, artec, bilstein) == Sum([apr, artec, bilstein])
  {
    assert [apr, artec, bilstein][1..] == [artec, bilstein];
    assert [artec, bilstein][1..] == [bilstein];
    assert [bilstein][1..] == [];
    assert Sum([bilstein]) == Add(bilstein, Totals(0, 0, 0, 0));
    assert Sum([artec, bilstein]) == Add(artec, Sum([bilstein]));
  }

  lemma {:induction false} SumAppend(xs: seq<Totals>, ys: seq<Totals>)
    ensures Sum(xs + ys) == Add(Sum(xs), Sum(ys))
    decreases |xs|
  {
    if xs == [] {
      assert xs + ys == ys;
    } else {
      assert (xs + ys)[1..] == xs[1..] + ys;
      SumAppend(xs[1..], ys);
    }
  }

  /** Taking one record out of the middle, summing the rest and adding it
      back gives the same sum. */
  lemma SumRemove(pre: seq<Totals>, x: Totals, post: seq<Totals>)
    ensures Sum(pre + [x] + post) == Add(x, Sum(pre + post))
  {
    assert pre + [x] + post == pre + ([x] + post);
    SumAppend(pre, [x] + post);
    SumAppend(pre, post);
    assert ([x] + post)[1..] == post;
  }

  /** The grand total does not depend on the order the files are summed in:
      any rearrangement of the records has the same sum. */
  lemma {:induction false} SumPermutation(xs: seq<Totals>, ys: seq<Totals>)
    requires multiset(xs) == multiset(ys)
    ensures Sum(xs) == Sum(ys)
    decreases |xs|
  {
    if xs == [] {
      assert |ys| == |multiset(ys)| == 0;
    } else {
      var x := xs[0];
      assert x in multiset(ys);
      var j :| 0 <= j < |ys| && ys[j] == x;
      var rest := ys[..j] + ys[j + 1..];
      assert ys == ys[..j] + [x] + ys[j + 1..];
      assert xs == [x] + xs[1..];
      assert multiset(rest) == multiset(ys) - multiset{x};
      assert multiset(xs[1..]) == multiset(xs) - multiset{x};
      SumPermutation(xs[1..], rest);
      SumRemove(ys[..j], x, ys[j + 1..]);
    }
  }

  lemma {:induction false} CountAppend(xs: seq<Row>, ys: seq<Row>, p: Row -> bool)
    ensures Count(xs + ys, p) == Count(xs, p) + Count(ys, p)
    decreases |xs|
  {
    if xs == [] {
      assert xs + ys == ys;
    } else {
      assert (xs + ys)[1..] == xs[1..] + ys;
      CountAppend(xs[1..], ys, p);
    }
  }

  /** The record of one file in terms of the reference counts. */
  lemma AnalyzeCsvTotals(rows: seq<Row>)
    ensures AnalyzeCsv(rows).totals
         == Totals(|rows|, Count(rows, HasSku), Count(rows, HasUrl), Count(rows, HasBoth))
  {
  }

  lemma CountAppend3(a: seq<Row>, b: seq<Row>, c: seq<Row>, p: Row -> bool)
    ensures Count(a + b + c, p) == Count(a, p) + Count(b, p) + Count(c, p)
  {
    CountAppend(a + b, c, p);
    CountAppend(a, b, p);
  }

  /** Adding the three files' records gives the record of auditing all their
      rows as one file. */
  lemma GrandTotalIsAuditOfAllRows(apr: seq<Row>, artec: seq<Row>, bilstein: seq<Row>)
    ensures GrandTotal(AnalyzeCsv(apr).totals, AnalyzeCsv(artec).totals, AnalyzeCsv(bilstein).totals)
         == AnalyzeCsv(apr + artec + bilstein).totals
  {
    var all := apr + artec + bilstein;
    var a, b, c := AnalyzeCsv(apr).totals, AnalyzeCsv(artec).totals, AnalyzeCsv(bilstein).totals;
    AnalyzeCsvTotals(apr);
    AnalyzeCsvTotals(artec);
    AnalyzeCsvTotals(bilstein);
    AnalyzeCsvTotals(all);
    CountAppend3(apr, artec, bilstein, HasSku);
    CountAppend3(apr, artec, bilstein, HasUrl);
    CountAppend3(apr, artec, bilstein, HasBoth);
    var t := Totals(|all|, Count(all, HasSku), Count(all, HasUrl), Count(all, HasBoth));
    assert GrandTotal(a, b, c) == t;
  }
}
