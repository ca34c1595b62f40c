/** The block printed after the five counter lines, as a value instead of
    text: nothing, a numbered list of the SKUs missing a URL, or a single
    "too many to list" line carrying their count. */
module Listing {

  /** One `"{i}. {sku}"` line of the numbered list. */
  datatype Line = Line(number: nat, sku: string)

  datatype Listing =
    | NoList
    | Enumerated(lines: seq<Line>)
    | TooMany(count: nat)

  /** Lists of this many SKUs or more are only counted, not enumerated. */
  const ListLimit: nat := 10

  /** Python's `enumerate(skus, start)`: each SKU paired with its position,
      counted from `start`. */
  function Enumerate(skus: seq<string>, start: nat): (lines: seq<Line>)
    ensures |lines| == |skus|
    ensures forall i :: 0 <= i < |lines| ==> lines[i] == Line(start + i, skus[i])
    decreases |skus|
  {
    if skus == [] then [] else [Line(start, skus[0])] + Enumerate(skus[1..], start + 1)
  }

  /** The SKUs shown by `lines`, in order. */
  function SkusOf(lines: seq<Line>): seq<string>
  {
    seq(|lines|, i requires 0 <= i < |lines| => lines[i].sku)
  }

  /** The lines are numbered 1, 2, 3, ... in order. */
  predicate NumberedFromOne(lines: seq<Line>)
  {
    forall i :: 0 <= i < |lines| ==> lines[i].number == i + 1
  }

  /** Dropping the numbers from `Enumerate(skus, 1)` gives back `skus`, and
      the numbers run from 1 to `|skus|`. */
  lemma EnumerateRoundTrip(skus: seq<string>)
    ensures SkusOf(Enumerate(skus, 1)) == skus
    ensures NumberedFromOne(Enumerate(skus, 1))
  {
  }

  /** The three-way rule of the per-file report: enumerate when there are
      between 1 and 9 missing SKUs, print only the count when there are 10 or
      more, print nothing when there are none. */
  function ThresholdListing(missing: seq<string>): (l: Listing)
    ensures l.NoList? <==> |missing| == 0
    ensures l.Enumerated? <==> 0 < |missing| < ListLimit
    ensures l.TooMany? <==> ListLimit <= |missing|
    ensures l.Enumerated? ==> SkusOf(l.lines) == missing && NumberedFromOne(l.lines)
    ensures l.TooMany? ==> l.count == |missing|
  {
    if |missing| > 0 && |missing| < ListLimit then Enumerated(Enumerate(missing, 1))
    else if |missing| > 0 then TooMany(|missing|)
    else NoList
  }

  /** The rule of the single-file script: enumerate every missing SKU,
      however many, and print nothing when there are none. */
  function FullListing(missing: seq<string>): (l: Listing)
    ensures l.NoList? <==> |missing| == 0
    ensures !l.TooMany?
    ensures l.Enumerated? ==> SkusOf(l.lines) == missing && NumberedFromOne(l.lines)
  {
    if |missing| > 0 then Enumerated(Enumerate(missing, 1)) else NoList
  }

  /** The two rules agree below the limit; at or above it the threshold rule
      only counts while the other still enumerates everything. */
  lemma ThresholdVersusFull(missing: seq<string>)
    ensures |missing| < ListLimit ==> ThresholdListing(missing) == FullListing(missing)
    ensures ListLimit <= |missing| ==>
      && ThresholdListing(missing) == TooMany(|missing|)
      && FullListing(missing) == Enumerated(Enumerate(missing, 1))
  {
  }
}
