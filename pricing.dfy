/** The per-listing pricing analysis shown on the dashboard: competitor totals,
    their minimum, maximum and average, the standing of the user's total, the
    overpriced test shared by the filter and the suggestion, and search matching. */
module Pricing {
  import opened Wrappers
  import opened Listings
  import opened Text

  /** The competitor totals, one per competitor and in stored order. */
  function Totals(cs: seq<Competitor>): (r: seq<real>)
    ensures |r| == |cs|
    ensures forall i :: 0 <= i < |cs| ==> r[i] == cs[i].price + cs[i].shipping
  {
    seq(|cs|, i requires 0 <= i < |cs| => Total(cs[i]))
  }

  /** Python's `min` of a non-empty list of totals. */
  function Min(s: seq<real>): (m: real)
    requires |s| > 0
    ensures m in s
    ensures forall x :: x in s ==> m <= x
  {
    if |s| == 1 then s[0]
    else
      var rest := Min(s[1..]);
      assert forall x :: x in s ==> x == s[0] || x in s[1..];
      if s[0] <= rest then s[0] else rest
  }

  /** Python's `max` of a non-empty list of totals. */
  function Max(s: seq<real>): (m: real)
    requires |s| > 0
    ensures m in s
    ensures forall x :: x in s ==> x <= m
  {
    if |s| == 1 then s[0]
    else
      var rest := Max(s[1..]);
      assert forall x :: x in s ==> x == s[0] || x in s[1..];
      if s[0] >= rest then s[0] else rest
  }

  /** Python's `sum`. */
  function Sum(s: seq<real>): real {
    if s == [] then 0.0 else s[0] + Sum(s[1..])
  }

  /** `sum(s) / len(s)`. */
  function Average(s: seq<real>): real
    requires |s| > 0
  {
    Sum(s) / (|s| as real)
  }

  /** A sum of values that all lie between `lo` and `hi` lies between `|s|·lo` and `|s|·hi`. */
  lemma SumBetween(s: seq<real>, lo: real, hi: real)
    requires forall x :: x in s ==> lo <= x <= hi
    ensures (|s| as real) * lo <= Sum(s) <= (|s| as real) * hi
  {
    SumAtLeast(s, lo);
    SumAtMost(s, hi);
  }

  /** The lower half of `SumBetween`, by induction on `s`. */
  lemma {:induction false} SumAtLeast(s: seq<real>, lo: real)
    requires forall x :: x in s ==> lo <= x
    ensures (|s| as real) * lo <= Sum(s)
  {
    if s != [] {
      var t := s[1..];
      assert forall x :: x in t ==> x in s;
      SumAtLeast(t, lo);
      assert s[0] in s;
      OneMore(|t|, lo);
    }
  }

  /** The upper half of `SumBetween`, by induction on `s`. */
  lemma {:induction false} SumAtMost(s: seq<real>, hi: real)
    requires forall x :: x in s ==> x <= hi
    ensures Sum(s) <= (|s| as real) * hi
  {
    if s != [] {
      var t := s[1..];
      assert forall x :: x in t ==> x in s;
      SumAtMost(t, hi);
      assert s[0] in s;
      OneMore(|t|, hi);
    }
  }

  /** `(n + 1) * x == n * x + x` over the reals. */
  lemma OneMore(n: nat, x: real)
    ensures ((n + 1) as real) * x == (n as real) * x + x
  {
  }

  /** An average of values that all lie between `lo` and `hi` lies between them too. */
  lemma AverageWithin(s: seq<real>, lo: real, hi: real)
    requires |s| > 0
    requires forall x :: x in s ==> lo <= x <= hi
    ensures lo <= Average(s) <= hi
  {
    SumBetween(s, lo, hi);
    DivideBounds(lo, Sum(s), hi, |s| as real);
  }

  /** Dividing `n·lo ≤ total ≤ n·hi` by a positive `n`. */
  lemma DivideBounds(lo: real, total: real, hi: real, n: real)
    requires n > 0.0 && n * lo <= total <= n * hi
    ensures lo <= total / n <= hi
  {
    assert n * (total / n) == total;
  }

  /** The average of a non-empty list of totals lies between its minimum and its maximum. */
  lemma AverageBetween(s: seq<real>)
    requires |s| > 0
    ensures Min(s) <= Average(s) <= Max(s)
  {
    AverageWithin(s, Min(s), Max(s));
  }

  /** The competitor statistics block: lowest, highest and average total. */
  datatype Stats = Stats(min: real, max: real, average: real)

  /** Statistics are shown only for a listing with competitors; the lowest and
      highest are attained by some competitor and bound every competitor's total,
      and the average lies between them. */
  function CompetitorStats(l: Listing): (r: Option<Stats>)
    ensures r.None? <==> l.competitors == []
    ensures r.Some? ==> r.value.min <= r.value.average <= r.value.max
    ensures r.Some? ==> forall i :: 0 <= i < |l.competitors| ==>
      r.value.min <= Total(l.competitors[i]) <= r.value.max
    ensures r.Some? ==> exists i :: 0 <= i < |l.competitors| && Total(l.competitors[i]) == r.value.min
    ensures r.Some? ==> exists i :: 0 <= i < |l.competitors| && Total(l.competitors[i]) == r.value.max
  {
    if l.competitors == [] then None
    else
      var t := Totals(l.competitors);
      AverageBetween(t);
      assert forall i :: 0 <= i < |l.competitors| ==> t[i] in t;
      Some(Stats(Min(t), Max(t), Average(t)))
  }

  /** The message the dashboard shows about the user's standing. */
  datatype Standing = NoData | Lowest | Highest | MidRange

  /** Strictly below the lowest competitor is "lowest", strictly above the highest
      is "highest", anything else (ties included) is "mid-range". */
  function Classify(l: Listing): Standing {
    if l.competitors == [] then NoData
    else
      var t := Totals(l.competitors);
      if MyTotal(l) < Min(t) then Lowest
      else if MyTotal(l) > Max(t) then Highest
      else MidRange
  }

  /** The standing in terms of the competitor totals themselves: lowest means
      cheaper than every competitor, highest dearer than every competitor,
      mid-range that some competitor is no dearer and some no cheaper; in
      particular a tie with any competitor is mid-range. */
  lemma ClassifyMeaning(l: Listing)
    ensures Classify(l) == NoData <==> l.competitors == []
    ensures Classify(l) == Lowest <==>
      l.competitors != [] && forall i :: 0 <= i < |l.competitors| ==> MyTotal(l) < Total(l.competitors[i])
    ensures Classify(l) == Highest <==>
      l.competitors != [] && forall i :: 0 <= i < |l.competitors| ==> MyTotal(l) > Total(l.competitors[i])
    ensures Classify(l) == MidRange <==>
      (exists i :: 0 <= i < |l.competitors| && Total(l.competitors[i]) <= MyTotal(l)) &&
      (exists j :: 0 <= j < |l.competitors| && MyTotal(l) <= Total(l.competitors[j]))
    ensures (exists i :: 0 <= i < |l.competitors| && Total(l.competitors[i]) == MyTotal(l)) ==>
      Classify(l) == MidRange
  {
    var cs := l.competitors;
    if cs != [] {
      var t := Totals(cs);
      assert forall i :: 0 <= i < |cs| ==> t[i] in t;
      var lo :| 0 <= lo < |cs| && t[lo] == Min(t);
      var hi :| 0 <= hi < |cs| && t[hi] == Max(t);
      assert Total(cs[lo]) == Min(t) && Total(cs[hi]) == Max(t);
    }
  }

  /** `my_total > min_price * 1.1`, written exactly over the reals as `10·my_total > 11·min_price`. */
  predicate AboveThreshold(myTotal: real, lowest: real) {
    10.0 * myTotal > 11.0 * lowest
  }

  /** A listing is overpriced when it has competitors and its total exceeds the
      lowest competitor total by more than ten percent. */
  predicate Overpriced(l: Listing) {
    l.competitors != [] && AboveThreshold(MyTotal(l), Min(Totals(l.competitors)))
  }

  /** The "only show overpriced" filter skips a listing that has competitors and fails the test. */
  predicate HiddenByFilter(l: Listing, overpricedOnly: bool) {
    overpricedOnly && l.competitors != [] && !AboveThreshold(MyTotal(l), Min(Totals(l.competitors)))
  }

  /** The suggested reduction: by how much the user's total exceeds the lowest
      competitor total, offered only when the threshold test holds. */
  function Suggestion(l: Listing): Option<real> {
    if l.competitors != [] && AboveThreshold(MyTotal(l), Min(Totals(l.competitors)))
    then Some(MyTotal(l) - Min(Totals(l.competitors)))
    else None
  }

  /** The filter and the suggestion apply one and the same test: with the filter
      on, a listing with competitors is kept exactly when a reduction is suggested
      for it; a listing without competitors is never hidden; with the filter off
      nothing is hidden. */
  lemma FilterAgreesWithSuggestion(l: Listing, overpricedOnly: bool)
    ensures l.competitors == [] ==> !HiddenByFilter(l, overpricedOnly)
    ensures !overpricedOnly ==> !HiddenByFilter(l, overpricedOnly)
    ensures overpricedOnly && l.competitors != [] ==> (HiddenByFilter(l, overpricedOnly) <==> Suggestion(l).None?)
    ensures Suggestion(l).Some? <==> Overpriced(l)
  {
  }

  /** For totals that are not negative, a suggested reduction is positive, it
      brings the user's total down to exactly the lowest competitor total (a tie,
      hence mid-range), and an overpriced listing is never "lowest". */
  lemma SuggestionMeaning(l: Listing)
    requires forall i :: 0 <= i < |l.competitors| ==> Total(l.competitors[i]) >= 0.0
    ensures Suggestion(l).Some? ==> Suggestion(l).value > 0.0
    ensures Suggestion(l).Some? ==>
      Classify(l.(myPrice := l.myPrice - Suggestion(l).value)) == MidRange
    ensures Overpriced(l) ==> Classify(l) != Lowest
  {
    if l.competitors != [] {
      var t := Totals(l.competitors);
      var i :| 0 <= i < |t| && t[i] == Min(t);
      assert Min(t) >= 0.0;
      assert Min(t) <= Max(t);
    }
  }

  /** The search box: an empty term shows every SKU, otherwise the lower-cased
      term must occur in the lower-cased SKU. */
  predicate Visible(search: string, sku: string) {
    search == [] || Contains(Lower(sku), Lower(search))
  }

  /** The slice of `sku` at offset `i` equals `search` up to case. */
  predicate MatchesAt(search: string, sku: string, i: nat) {
    i + |search| <= |sku| && Lower(sku[i..i + |search|]) == Lower(search)
  }

  /** Matching is case-insensitive substring search over the SKU. */
  lemma VisibleMeaning(search: string, sku: string)
    ensures Visible(search, sku) <==> search == [] || exists i: nat :: MatchesAt(search, sku, i)
  {
    ContainsAt(Lower(sku), Lower(search));
    if exists i: nat :: OccursAt(Lower(sku), Lower(search), i) {
      var i: nat :| OccursAt(Lower(sku), Lower(search), i);
      LowerSlice(sku, i, i + |search|);
      assert MatchesAt(search, sku, i);
    }
    if exists i: nat :: MatchesAt(search, sku, i) {
      var i: nat :| MatchesAt(search, sku, i);
      LowerSlice(sku, i, i + |search|);
      assert OccursAt(Lower(sku), Lower(search), i);
    }
  }

  /** The SKUs that get an expander, in dict order. The search is the only test
      made before the expander opens, so a SKU that the overpriced filter skips
      still gets one, left empty. */
  function ExpanderKeys(keys: seq<string>, search: string): (r: seq<string>)
    ensures forall k :: k in r <==> k in keys && Visible(search, k)
    ensures |r| <= |keys|
  {
    if keys == [] then []
    else
      var rest := ExpanderKeys(keys[..|keys| - 1], search);
      var last := keys[|keys| - 1];
      assert forall k :: k in keys <==> k in keys[..|keys| - 1] || k == last;
      if Visible(search, last) then rest + [last] else rest
  }

  /** A listing's panel content (its total, statistics, competitor table, chart
      and verdict) is rendered when the search matches its SKU and the overpriced
      filter does not skip it. */
  predicate Shown(sku: string, l: Listing, search: string, overpricedOnly: bool) {
    Visible(search, sku) && !HiddenByFilter(l, overpricedOnly)
  }

  /** The SKUs whose panel content is rendered. */
  function PanelKeys(keys: seq<string>, rows: map<string, Listing>, search: string, overpricedOnly: bool): (r: seq<string>)
    requires forall k :: k in keys ==> k in rows
    ensures forall k :: k in r <==> k in keys && Shown(k, rows[k], search, overpricedOnly)
    ensures |r| <= |keys|
  {
    if keys == [] then []
    else
      var rest := PanelKeys(keys[..|keys| - 1], rows, search, overpricedOnly);
      var last := keys[|keys| - 1];
      assert forall k :: k in keys <==> k in keys[..|keys| - 1] || k == last;
      if Shown(last, rows[last], search, overpricedOnly) then rest + [last] else rest
  }

  /** Every rendered panel sits in an expander, and an expander left empty
      belongs to a SKU that the overpriced filter skips. */
  lemma PanelsInExpanders(keys: seq<string>, rows: map<string, Listing>, search: string, overpricedOnly: bool)
    requires forall k :: k in keys ==> k in rows
    ensures forall k :: k in PanelKeys(keys, rows, search, overpricedOnly) ==> k in ExpanderKeys(keys, search)
    ensures forall k :: k in ExpanderKeys(keys, search) && k !in PanelKeys(keys, rows, search, overpricedOnly) ==>
      HiddenByFilter(rows[k], overpricedOnly)
  {
  }

  /** The expanders follow dict order: the expanders of a concatenation are
      those of each part, in turn. With `ExpanderKeysOne` this makes
      `ExpanderKeys` the in-order filter of `keys`. */
  lemma {:induction false} ExpanderKeysInOrder(a: seq<string>, b: seq<string>, search: string)
    ensures ExpanderKeys(a + b, search) == ExpanderKeys(a, search) + ExpanderKeys(b, search)
    decreases |b|
  {
    if b == [] {
      assert a + b == a;
    } else {
      var init := b[..|b| - 1];
      assert (a + b)[..|a + b| - 1] == a + init;
      assert (a + b)[|a + b| - 1] == b[|b| - 1];
      ExpanderKeysInOrder(a, init, search);
    }
  }

  /** A single SKU gets an expander exactly when it is visible. */
  lemma ExpanderKeysOne(k: string, search: string)
    ensures ExpanderKeys([k], search) == if Visible(search, k) then [k] else []
  {
    assert [k][..0] == [];
  }

  /** The rendered panels follow dict order in the same way. */
  lemma {:induction false} PanelKeysInOrder(a: seq<string>, b: seq<string>, rows: map<string, Listing>,
                                             search: string, overpricedOnly: bool)
    requires forall x :: x in a + b ==> x in rows
    ensures forall x :: x in a ==> x in rows
    ensures forall x :: x in b ==> x in rows
    ensures PanelKeys(a + b, rows, search, overpricedOnly) ==
      PanelKeys(a, rows, search, overpricedOnly) + PanelKeys(b, rows, search, overpricedOnly)
    decreases |b|
  {
    if b != [] {
      var init := b[..|b| - 1];
      var last := b[|b| - 1];
      var tail := if Shown(last, rows[last], search, overpricedOnly) then [last] else [];
      assert (a + b)[..|a + b| - 1] == a + init;
      assert (a + b)[|a + b| - 1] == last;
      PanelKeysInOrder(a, init, rows, search, overpricedOnly);
      calc {
        PanelKeys(a + b, rows, search, overpricedOnly);
        PanelKeys(a + init, rows, search, overpricedOnly) + tail;
        PanelKeys(a, rows, search, overpricedOnly) + PanelKeys(init, rows, search, overpricedOnly) + tail;
        PanelKeys(a, rows, search, overpricedOnly) + PanelKeys(b, rows, search, overpricedOnly);
      }
    } else {
      assert a + b == a;
    }
  }

  /** A single SKU's panel is rendered exactly when it is shown. */
  lemma PanelKeysOne(k: string, rows: map<string, Listing>, search: string, overpricedOnly: bool)
    requires k in rows
    ensures PanelKeys([k], rows, search, overpricedOnly) == if Shown(k, rows[k], search, overpricedOnly) then [k] else []
  {
    assert [k][..0] == [];
  }
}
