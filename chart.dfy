/** The data behind the total-price bar chart: one (seller, total) point per
    competitor plus the user's own point, duplicates removed, sorted by total.
    The stored competitor list itself is never deduplicated. */
module Chart {
  import opened Listings

  datatype ChartPoint = ChartPoint(seller: string, total: real)

  /** The chart point of one competitor. */
  function PointOf(c: Competitor): ChartPoint {
    ChartPoint(c.seller, Total(c))
  }

  /** The competitor points, one per competitor, in stored order. */
  function Points(cs: seq<Competitor>): (r: seq<ChartPoint>)
    ensures |r| == |cs|
    ensures forall i :: 0 <= i < |cs| ==> r[i] == PointOf(cs[i])
  {
    if cs == [] then [] else [PointOf(cs[0])] + Points(cs[1..])
  }

  /** No point occurs twice. */
  ghost predicate NoDuplicates(s: seq<ChartPoint>) {
    forall p :: multiset(s)[p] <= 1
  }

  /** `drop_duplicates(subset=['seller', 'total'])`: the first occurrence of each
      point is kept; the result has the same points and none twice. */
  function Dedup(s: seq<ChartPoint>): (r: seq<ChartPoint>)
    ensures NoDuplicates(r)
    ensures forall p :: p in r <==> p in s
    ensures |r| <= |s|
    ensures s != [] ==> r != [] && r[0] == s[0]
  {
    if s == [] then []
    else
      var init := s[..|s| - 1];
      var last := s[|s| - 1];
      var d := Dedup(init);
      assert s == init + [last];
      assert init != [] ==> init[0] == s[0];
      if last in d then d
      else
        assert multiset(d)[last] == 0;
        d + [last]
  }

  /** Points in ascending order of total. */
  predicate SortedByTotal(s: seq<ChartPoint>) {
    forall i, j :: 0 <= i < j < |s| ==> s[i].total <= s[j].total
  }

  /** Inserts `p` before the first point whose total is not smaller than its own. */
  function Insert(p: ChartPoint, s: seq<ChartPoint>): (r: seq<ChartPoint>)
    ensures multiset(r) == multiset(s) + multiset{p}
    ensures r[0] == p || (s != [] && r[0] == s[0])
  {
    if s == [] || p.total <= s[0].total then [p] + s
    else
      assert s == [s[0]] + s[1..];
      [s[0]] + Insert(p, s[1..])
  }

  /** Inserting into a sorted sequence keeps it sorted. */
  lemma {:induction false} InsertSorted(p: ChartPoint, s: seq<ChartPoint>)
    requires SortedByTotal(s)
    ensures SortedByTotal(Insert(p, s))
  {
    if s != [] && p.total > s[0].total {
      var rest := Insert(p, s[1..]);
      InsertSorted(p, s[1..]);
      assert s[0].total <= rest[0].total;
    }
  }

  /** `sort_values(by='total')`: the same points, in ascending order of total. */
  function SortByTotal(s: seq<ChartPoint>): (r: seq<ChartPoint>)
    ensures SortedByTotal(r)
    ensures multiset(r) == multiset(s)
  {
    if s == [] then []
    else
      assert s == [s[0]] + s[1..];
      InsertSorted(s[0], SortByTotal(s[1..]));
      Insert(s[0], SortByTotal(s[1..]))
  }

  /** The user's own point, appended after the competitors'. */
  function YouPoint(l: Listing): ChartPoint {
    ChartPoint("You", MyTotal(l))
  }

  /** The chart data of a listing. */
  function ChartData(l: Listing): seq<ChartPoint> {
    SortByTotal(Dedup(Points(l.competitors) + [YouPoint(l)]))
  }

  /** Sorting keeps the points and their number. */
  lemma SortKeepsPoints(s: seq<ChartPoint>)
    ensures forall p :: p in SortByTotal(s) <==> p in s
    ensures |SortByTotal(s)| == |s|
  {
    var r := SortByTotal(s);
    forall p
      ensures p in r <==> p in s
    {
      assert p in r <==> multiset(r)[p] > 0;
      assert p in s <==> multiset(s)[p] > 0;
    }
    assert |r| == |multiset(r)| == |multiset(s)| == |s|;
  }

  /** The chart's bars are in ascending order of total, no bar occurs twice,
      and there is at most one bar more than there are competitors. */
  lemma ChartDataShape(l: Listing)
    ensures SortedByTotal(ChartData(l))
    ensures NoDuplicates(ChartData(l))
    ensures |ChartData(l)| <= |l.competitors| + 1
  {
    SortKeepsPoints(Dedup(Points(l.competitors) + [YouPoint(l)]));
  }

  /** The chart shows the user's point and every competitor's point, and
      nothing else. */
  lemma ChartDataMeaning(l: Listing)
    ensures YouPoint(l) in ChartData(l)
    ensures forall i :: 0 <= i < |l.competitors| ==> PointOf(l.competitors[i]) in ChartData(l)
    ensures forall p :: p in ChartData(l) ==>
      p == YouPoint(l) || exists i :: 0 <= i < |l.competitors| && p == PointOf(l.competitors[i])
  {
    var all := Points(l.competitors) + [YouPoint(l)];
    var r := SortByTotal(Dedup(all));
    SortKeepsPoints(Dedup(all));
    forall i | 0 <= i < |l.competitors| ensures PointOf(l.competitors[i]) in r {
      assert all[i] == PointOf(l.competitors[i]);
    }
    assert all[|all| - 1] == YouPoint(l);
    forall p | p in r ensures p == YouPoint(l) || exists i :: 0 <= i < |l.competitors| && p == PointOf(l.competitors[i]) {
      var k :| 0 <= k < |all| && all[k] == p;
      if k < |l.competitors| {
        assert p == PointOf(l.competitors[k]);
      }
    }
  }

  /** For a listing without competitors the chart holds the user's bar alone. */
  lemma ChartDataWithoutCompetitors(l: Listing)
    requires l.competitors == []
    ensures ChartData(l) == [YouPoint(l)]
  {
    assert Points(l.competitors) + [YouPoint(l)] == [YouPoint(l)];
  }
}
