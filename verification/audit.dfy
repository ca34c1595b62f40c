/** The per-row audit fold shared by both scripts: for every CSV row read
    the `SKU` and `Origin URL` columns (an absent column reads as ""), strip
    surrounding whitespace, and update four counters and the ordered list of
    SKUs that have no URL. */
module RowAudit {
  import opened Strings

  /** One row as produced by the CSV reader: column name to cell text. */
  type Row = map<string, string>

  const SkuColumn: string := "SKU"
  const UrlColumn: string := "Origin URL"

  /** `row.get(column, '')`. */
  function Lookup(row: Row, column: string): string
  {
    if column in row then row[column] else ""
  }

  /** `row.get('SKU', '').strip()`. */
  function Sku(row: Row): string
  {
    Strip(Lookup(row, SkuColumn))
  }

  /** `row.get('Origin URL', '').strip()`. */
  function Url(row: Row): string
  {
    Strip(Lookup(row, UrlColumn))
  }

  /** Python truthiness of the stripped values: a string is true iff it is
      non-empty. */
  predicate HasSku(row: Row) { Sku(row) != "" }
  predicate HasUrl(row: Row) { Url(row) != "" }
  predicate HasBoth(row: Row) { HasSku(row) && HasUrl(row) }
  predicate MissingUrl(row: Row) { HasSku(row) && !HasUrl(row) }

  /** The loop's state: `total_rows`, `rows_with_skus`, `rows_with_urls`,
      `rows_with_both` and `missing_url_skus`. */
  datatype Stats = Stats(
    total: nat,
    withSkus: nat,
    withUrls: nat,
    withBoth: nat,
    missing: seq<string>)

  /** The state before the first row. */
  const Initial: Stats := Stats(0, 0, 0, 0, [])

  /** The counting invariants every reachable state satisfies. */
  predicate Consistent(s: Stats)
  {
    && s.withBoth <= s.withSkus <= s.total
    && s.withBoth <= s.withUrls <= s.total
    && |s.missing| + s.withBoth == s.withSkus
    && forall i :: 0 <= i < |s.missing| ==> s.missing[i] != ""
  }

  /** One iteration of the `for row in reader` body. */
  function Step(s: Stats, row: Row): (r: Stats)
    ensures Consistent(s) ==> Consistent(r)
    ensures r.total == s.total + 1
  {
    var sku := Sku(row);
    var url := Url(row);
    Stats(
      s.total + 1,
      if sku != "" then s.withSkus + 1 else s.withSkus,
      if url != "" then s.withUrls + 1 else s.withUrls,
      if sku != "" && url != "" then s.withBoth + 1 else s.withBoth,
      if sku != "" && url == "" then s.missing + [sku] else s.missing)
  }

  /** The loop's state after consuming `rows` in order from state `s`. */
  function AuditFrom(s: Stats, rows: seq<Row>): (r: Stats)
    ensures r.total == s.total + |rows|
    ensures Consistent(s) ==> Consistent(r)
    decreases |rows|
  {
    if rows == [] then s else AuditFrom(Step(s, rows[0]), rows[1..])
  }

  /** The loop's state once every row has been consumed: the counters
      satisfy the counting invariants and `total` is the number of rows. */
  function Audit(rows: seq<Row>): (r: Stats)
    ensures r.total == |rows|
    ensures Consistent(r)
  {
    AuditFrom(Initial, rows)
  }

  /** Consuming one more row at the end is one more `Step`. */
  lemma {:induction false} AuditFromSnoc(s: Stats, rows: seq<Row>, row: Row)
    ensures AuditFrom(s, rows + [row]) == Step(AuditFrom(s, rows), row)
    decreases |rows|
  {
    if rows == [] {
      assert [] + [row] == [row];
      assert [row][1..] == [];
    } else {
      assert (rows + [row])[1..] == rows[1..] + [row];
      AuditFromSnoc(Step(s, rows[0]), rows[1..], row);
    }
  }

  /** Auditing `rows + [row]` is auditing `rows`, then one `Step`; in
      particular every prefix's state satisfies the counting invariants. */
  lemma AuditSnoc(rows: seq<Row>, row: Row)
    ensures Audit(rows + [row]) == Step(Audit(rows), row)
  {
    AuditFromSnoc(Initial, rows, row);
  }

  // Reference definitions, written head-first and independently of `Step`.

  /** Number of rows satisfying `p`. */
  function Count(rows: seq<Row>, p: Row -> bool): (n: nat)
    ensures n <= |rows|
  {
    if rows == [] then 0
    else (if p(rows[0]) then 1 else 0) + Count(rows[1..], p)
  }

  /** The stripped SKUs of the rows that have a SKU but no URL, in row order. */
  function MissingSkus(rows: seq<Row>): seq<string>
  {
    if rows == [] then []
    else (if MissingUrl(rows[0]) then [Sku(rows[0])] else []) + MissingSkus(rows[1..])
  }

  lemma {:induction false} CountSnoc(rows: seq<Row>, row: Row, p: Row -> bool)
    ensures Count(rows + [row], p) == Count(rows, p) + (if p(row) then 1 else 0)
    decreases |rows|
  {
    if rows == [] {
      assert [] + [row] == [row];
    } else {
      assert (rows + [row])[1..] == rows[1..] + [row];
      CountSnoc(rows[1..], row, p);
    }
  }

  lemma {:induction false} MissingSkusSnoc(rows: seq<Row>, row: Row)
    ensures MissingSkus(rows + [row])
         == MissingSkus(rows) + (if MissingUrl(row) then [Sku(row)] else [])
    decreases |rows|
  {
    if rows == [] {
      assert [] + [row] == [row];
    } else {
      assert (rows + [row])[1..] == rows[1..] + [row];
      MissingSkusSnoc(rows[1..], row);
    }
  }

  /** From any starting state, the fold adds to each counter the number of
      rows with that property. */
  lemma {:induction false} AuditFromCounts(s: Stats, rows: seq<Row>)
    ensures AuditFrom(s, rows).withSkus == s.withSkus + Count(rows, HasSku)
    ensures AuditFrom(s, rows).withUrls == s.withUrls + Count(rows, HasUrl)
    ensures AuditFrom(s, rows).withBoth == s.withBoth + Count(rows, HasBoth)
    decreases |rows|
  {
    if rows != [] {
      AuditFromCounts(Step(s, rows[0]), rows[1..]);
    }
  }

  /** From any starting state, the fold appends the filtered SKUs. */
  lemma {:induction false} AuditFromMissing(s: Stats, rows: seq<Row>)
    ensures AuditFrom(s, rows).missing == s.missing + MissingSkus(rows)
    decreases |rows|
  {
    if rows == [] {
      assert s.missing + [] == s.missing;
    } else {
      var row, rest := rows[0], rows[1..];
      var head := if MissingUrl(row) then [Sku(row)] else [];
      var t := Step(s, row);
      AuditFromMissing(t, rest);
      assert AuditFrom(s, rows) == AuditFrom(t, rest);
      assert t.missing == s.missing + head;
      assert MissingSkus(rows) == head + MissingSkus(rest);
      assert s.missing + head + MissingSkus(rest) == s.missing + (head + MissingSkus(rest));
    }
  }

  /** The fold computes exactly the counts and the list of the reference
      definitions: each counter is the number of rows with that property,
      and the missing list the filtered SKUs (`total` is the number of rows
      by `Audit`'s own contract). */
  lemma AuditIsReference(rows: seq<Row>)
    ensures Audit(rows).withSkus == Count(rows, HasSku)
    ensures Audit(rows).withUrls == Count(rows, HasUrl)
    ensures Audit(rows).withBoth == Count(rows, HasBoth)
    ensures Audit(rows).missing == MissingSkus(rows)
  {
    AuditFromCounts(Initial, rows);
    AuditFromMissing(Initial, rows);
    assert [] + MissingSkus(rows) == MissingSkus(rows);
  }

  /** Positions (0-based) of the rows that have a SKU but no URL, ascending. */
  function MissingPositions(rows: seq<Row>): (ix: seq<nat>)
    ensures forall k :: 0 <= k < |ix| ==> ix[k] < |rows| && MissingUrl(rows[ix[k]])
    ensures forall k, l :: 0 <= k < l < |ix| ==> ix[k] < ix[l]
    ensures forall i :: 0 <= i < |rows| && MissingUrl(rows[i]) ==> i in ix
    decreases |rows|
  {
    if rows == [] then []
    else
      var init := rows[..|rows| - 1];
      var prev := MissingPositions(init);
      if MissingUrl(rows[|rows| - 1]) then prev + [|rows| - 1] else prev
  }

  /** The reference missing list, entry by entry, is the SKU of the row at
      the corresponding missing position. */
  lemma {:induction false} MissingSkusAtPositions(rows: seq<Row>)
    ensures |MissingSkus(rows)| == |MissingPositions(rows)|
    ensures forall k :: 0 <= k < |MissingPositions(rows)| ==>
      MissingSkus(rows)[k] == Sku(rows[MissingPositions(rows)[k]])
    decreases |rows|
  {
    if rows != [] {
      var init := rows[..|rows| - 1];
      var last := rows[|rows| - 1];
      assert rows == init + [last];
      MissingSkusAtPositions(init);
      MissingSkusSnoc(init, last);
      var prev := MissingPositions(init);
      var before := MissingSkus(init);
      var ix := MissingPositions(rows);
      var after := MissingSkus(rows);
      forall k | 0 <= k < |ix|
        ensures after[k] == Sku(rows[ix[k]])
      {
        if k < |prev| {
          assert after[k] == before[k];
          assert ix[k] == prev[k];
          assert rows[prev[k]] == init[prev[k]];
        }
      }
    }
  }

  /** The audited missing list holds exactly the SKUs of the rows that have
      a SKU but no URL, each once, in input order. */
  lemma MissingInInputOrder(rows: seq<Row>)
    ensures |Audit(rows).missing| == |MissingPositions(rows)|
    ensures forall k :: 0 <= k < |MissingPositions(rows)| ==>
      Audit(rows).missing[k] == Sku(rows[MissingPositions(rows)[k]])
  {
    AuditIsReference(rows);
    MissingSkusAtPositions(rows);
  }

  /** When every row has a SKU and no URL, every row's SKU is listed. */
  lemma {:induction false} AllMissingLength(rows: seq<Row>)
    requires forall i :: 0 <= i < |rows| ==> MissingUrl(rows[i])
    ensures |MissingSkus(rows)| == |rows|
    decreases |rows|
  {
    if rows != [] {
      assert MissingUrl(rows[0]);
      AllMissingLength(rows[1..]);
    }
  }

  /** An absent or whitespace-only `SKU` cell counts as no SKU. */
  lemma BlankSkuIsAbsent(row: Row)
    ensures SkuColumn !in row ==> !HasSku(row)
    ensures SkuColumn in row ==> (HasSku(row) <==> !AllSpace(row[SkuColumn]))
  {
    StripEmptyIff(Lookup(row, SkuColumn));
  }

  /** An absent or whitespace-only `Origin URL` cell counts as no URL. */
  lemma BlankUrlIsAbsent(row: Row)
    ensures UrlColumn !in row ==> !HasUrl(row)
    ensures UrlColumn in row ==> (HasUrl(row) <==> !AllSpace(row[UrlColumn]))
  {
    StripEmptyIff(Lookup(row, UrlColumn));
  }

  /** The `for row in reader` loop as written, with its five mutable
      variables; it yields the reference counts and missing list. */
  method AuditRows(rows: seq<Row>) returns (stats: Stats)
    ensures stats.total == |rows|
    ensures stats.withSkus == Count(rows, HasSku)
    ensures stats.withUrls == Count(rows, HasUrl)
    ensures stats.withBoth == Count(rows, HasBoth)
    ensures stats.missing == MissingSkus(rows)
  {
    var totalRows, rowsWithSkus, rowsWithUrls, rowsWithBoth := 0, 0, 0, 0;
    var missingUrlSkus: seq<string> := [];
    var i := 0;
    while i < |rows|
      invariant 0 <= i <= |rows|
      invariant totalRows == i
      invariant Consistent(Stats(totalRows, rowsWithSkus, rowsWithUrls, rowsWithBoth, missingUrlSkus))
      invariant AuditFrom(
        Stats(totalRows, rowsWithSkus, rowsWithUrls, rowsWithBoth, missingUrlSkus),
        rows[i..]) == Audit(rows)
    {
      var row := rows[i];
      ghost var before := Stats(totalRows, rowsWithSkus, rowsWithUrls, rowsWithBoth, missingUrlSkus);
      totalRows := totalRows + 1;
      var sku := Sku(row);
      var url := Url(row);
      if sku != "" {
        rowsWithSkus := rowsWithSkus + 1;
      }
      if url != "" {
        rowsWithUrls := rowsWithUrls + 1;
      }
      if sku != "" && url != "" {
        rowsWithBoth := rowsWithBoth + 1;
      }
      if sku != "" && url == "" {
        missingUrlSkus := missingUrlSkus + [sku];
      }
      assert Stats(totalRows, rowsWithSkus, rowsWithUrls, rowsWithBoth, missingUrlSkus)
          == Step(before, row);
      assert rows[i..][1..] == rows[i + 1..];
      i := i + 1;
    }
    stats := Stats(totalRows, rowsWithSkus, rowsWithUrls, rowsWithBoth, missingUrlSkus);
    AuditIsReference(rows);
  }
}
