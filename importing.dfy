/** CSV import (the upload handler): rows with a seller are grouped by the
    forward-filled SKU; a SKU that is new to the session takes its own price and
    shipping from its blank-seller row; every seller row of the group is then
    appended to that SKU's competitors. A missing own row or a money cell that
    does not parse raises, which ends the import with the updates made so far
    kept; `ImportOutcome` records both the table reached and the error. */
module Importing {
  import opened Wrappers
  import opened Listings
  import opened Text

  /** One CSV row: SKU, Seller's Name, Listed Price, BUYER Shipping Cost.
      `None` is a blank (NaN) cell. */
  datatype Row = Row(sku: Option<string>, seller: Option<string>, price: string, shipping: string)

  /** A seller row of a group. */
  datatype Offer = Offer(seller: string, price: string, shipping: string)

  /** What ends an import early: no blank-seller row for a new SKU (`.iloc[0]` on
      an empty frame), or a money cell that `float` rejects. */
  datatype ImportError = MissingOwnRow(sku: string) | BadAmount(cell: string)

  datatype ImportOutcome = ImportOutcome(table: Table, error: Option<ImportError>)

  datatype AppendOutcome = AppendOutcome(competitors: seq<Competitor>, error: Option<ImportError>)

  /** A money cell: `float(str(cell).replace('$', '').replace(',', ''))`, where
      `parse` stands for `float` and gives `None` when it raises. */
  function Amount(parse: string -> Option<real>, cell: string): Option<real> {
    parse(Clean(cell))
  }

  /** `df['SKU'].ffill()` at row `i`. */
  function FilledKey(rows: seq<Row>, i: nat): Option<string>
    requires i < |rows|
  {
    if rows[i].sku.Some? then rows[i].sku
    else if i == 0 then None
    else FilledKey(rows, i - 1)
  }

  /** Row `j` is the last row up to `i` whose SKU cell is filled, and it holds `s`. */
  predicate NearestSku(rows: seq<Row>, i: nat, j: nat, s: string)
    requires i < |rows|
  {
    j <= i && rows[j].sku == Some(s) && forall k :: j < k <= i ==> rows[k].sku.None?
  }

  /** The group key of a row is the SKU of the nearest row at or above it whose
      SKU cell is filled; rows above the first filled SKU have no key. */
  lemma {:induction false} FilledKeyIsNearest(rows: seq<Row>, i: nat, s: string)
    requires i < |rows|
    ensures FilledKey(rows, i) == Some(s) <==> exists j: nat :: NearestSku(rows, i, j, s)
    ensures FilledKey(rows, i).None? <==> forall k :: 0 <= k <= i ==> rows[k].sku.None?
  {
    if rows[i].sku.Some? {
      if rows[i].sku == Some(s) {
        assert NearestSku(rows, i, i, s);
      }
    } else if i > 0 {
      var p := i - 1;
      FilledKeyIsNearest(rows, p, s);
      if exists j: nat :: NearestSku(rows, i, j, s) {
        var j: nat :| NearestSku(rows, i, j, s);
        assert NearestSku(rows, p, j, s);
      }
      if exists j: nat :: NearestSku(rows, p, j, s) {
        var j: nat :| NearestSku(rows, p, j, s);
        assert NearestSku(rows, i, j, s);
      }
    }
  }

  /** Row `i` belongs to the group of `sku`: it names a seller and its
      forward-filled SKU is `sku`. */
  predicate InGroup(rows: seq<Row>, i: nat, sku: string)
    requires i < |rows|
  {
    rows[i].seller.Some? && FilledKey(rows, i) == Some(sku)
  }

  function OfferOf(r: Row): Offer
    requires r.seller.Some?
  {
    Offer(r.seller.value, r.price, r.shipping)
  }

  /** The group of `sku` among the first `n` rows, in row order. */
  function GroupUpTo(rows: seq<Row>, sku: string, n: nat): (g: seq<Offer>)
    requires n <= |rows|
    ensures |g| <= n
    ensures forall i :: 0 <= i < n && InGroup(rows, i, sku) ==> OfferOf(rows[i]) in g
    ensures forall o :: o in g ==> exists i :: 0 <= i < n && InGroup(rows, i, sku) && o == OfferOf(rows[i])
  {
    if n == 0 then []
    else
      var g := GroupUpTo(rows, sku, n - 1);
      if InGroup(rows, n - 1, sku) then g + [OfferOf(rows[n - 1])] else g
  }

  /** The indices of the rows of the group of `sku` among the first `n` rows:
      increasing, each in the group, and every row of the group listed. */
  function GroupIndices(rows: seq<Row>, sku: string, n: nat): (idx: seq<nat>)
    requires n <= |rows|
    ensures forall k :: 0 <= k < |idx| ==> idx[k] < n && InGroup(rows, idx[k], sku)
    ensures forall k, m :: 0 <= k < m < |idx| ==> idx[k] < idx[m]
    ensures forall i :: 0 <= i < n && InGroup(rows, i, sku) ==> i in idx
  {
    if n == 0 then []
    else
      var idx := GroupIndices(rows, sku, n - 1);
      if InGroup(rows, n - 1, sku) then idx + [n - 1] else idx
  }

  /** The `k`-th offer of `g` is the offer of row `idx[k]`. */
  predicate OffersOfRows(g: seq<Offer>, rows: seq<Row>, idx: seq<nat>) {
    && |g| == |idx|
    && forall k :: 0 <= k < |idx| ==> idx[k] < |rows| && rows[idx[k]].seller.Some? && g[k] == OfferOf(rows[idx[k]])
  }

  lemma OffersOfRowsSnoc(g: seq<Offer>, rows: seq<Row>, idx: seq<nat>, i: nat)
    requires OffersOfRows(g, rows, idx)
    requires i < |rows| && rows[i].seller.Some?
    ensures OffersOfRows(g + [OfferOf(rows[i])], rows, idx + [i])
  {
    var g', idx' := g + [OfferOf(rows[i])], idx + [i];
    forall k | 0 <= k < |idx'|
      ensures idx'[k] < |rows| && rows[idx'[k]].seller.Some? && g'[k] == OfferOf(rows[idx'[k]])
    {
      if k < |idx| {
        assert idx'[k] == idx[k] && g'[k] == g[k];
      }
    }
  }

  /** The group holds the seller rows of `sku` in row order, each exactly once:
      its `k`-th offer comes from the `k`-th row of the group. */
  lemma {:induction false} GroupUpToInOrder(rows: seq<Row>, sku: string, n: nat)
    requires n <= |rows|
    ensures OffersOfRows(GroupUpTo(rows, sku, n), rows, GroupIndices(rows, sku, n))
  {
    if n > 0 {
      GroupUpToInOrder(rows, sku, n - 1);
      if InGroup(rows, n - 1, sku) {
        OffersOfRowsSnoc(GroupUpTo(rows, sku, n - 1), rows, GroupIndices(rows, sku, n - 1), n - 1);
      }
    }
  }

  /** The rows `groupby` puts in the group of `sku`. */
  function Group(rows: seq<Row>, sku: string): seq<Offer> {
    GroupUpTo(rows, sku, |rows|)
  }

  /** The keys `groupby` produces: the forward-filled SKUs of the seller rows
      (rows with no key at all are dropped). */
  function GroupKeys(rows: seq<Row>): set<string> {
    set i | 0 <= i < |rows| && rows[i].seller.Some? && FilledKey(rows, i).Some? :: FilledKey(rows, i).value
  }

  /** A key has a group exactly when some seller row forward-fills to it; a
      seller row above the first filled SKU belongs to no group. */
  lemma GroupKeysMeaning(rows: seq<Row>, sku: string)
    ensures sku in GroupKeys(rows) <==> Group(rows, sku) != []
    ensures forall i :: 0 <= i < |rows| && FilledKey(rows, i).None? ==> !InGroup(rows, i, sku)
  {
    if sku in GroupKeys(rows) {
      var i :| 0 <= i < |rows| && rows[i].seller.Some? && FilledKey(rows, i).Some? && FilledKey(rows, i).value == sku;
      assert InGroup(rows, i, sku);
    }
    if Group(rows, sku) != [] {
      var o := Group(rows, sku)[0];
      assert o in Group(rows, sku);
      var i :| 0 <= i < |rows| && InGroup(rows, i, sku) && o == OfferOf(rows[i]);
      assert FilledKey(rows, i).value == sku;
    }
  }

  /** `order` is the iteration order of the groups: each key exactly once. The
      order itself is chosen by pandas and left open here. */
  ghost predicate GroupOrder(rows: seq<Row>, order: seq<string>) {
    && (forall k :: k in order <==> k in GroupKeys(rows))
    && (forall i, j :: 0 <= i < j < |order| ==> order[i] != order[j])
  }

  /** Row `i` is an own row of `sku`: its raw SKU cell (not forward-filled) is
      `sku` and its seller cell is blank. */
  predicate IsOwnRow(rows: seq<Row>, i: nat, sku: string)
    requires i < |rows|
  {
    rows[i].sku == Some(sku) && rows[i].seller.None?
  }

  /** The first own row of `sku` at or after row `k`. */
  function OwnRowFrom(rows: seq<Row>, sku: string, k: nat): (r: Option<nat>)
    requires k <= |rows|
    decreases |rows| - k
    ensures r.Some? ==> k <= r.value < |rows| && IsOwnRow(rows, r.value, sku)
    ensures r.Some? ==> forall j :: k <= j < r.value ==> !IsOwnRow(rows, j, sku)
    ensures r.None? ==> forall j :: k <= j < |rows| ==> !IsOwnRow(rows, j, sku)
  {
    if k == |rows| then None
    else if IsOwnRow(rows, k, sku) then Some(k)
    else OwnRowFrom(rows, sku, k + 1)
  }

  /** `df[(df['SKU'] == sku) & df["Seller's Name"].isna()].iloc[0]`, as a row index. */
  function OwnRowIndex(rows: seq<Row>, sku: string): (r: Option<nat>)
    ensures r.Some? ==> r.value < |rows| && IsOwnRow(rows, r.value, sku)
    ensures r.Some? ==> forall j :: 0 <= j < r.value ==> !IsOwnRow(rows, j, sku)
    ensures r.None? ==> forall j :: 0 <= j < |rows| ==> !IsOwnRow(rows, j, sku)
  {
    OwnRowFrom(rows, sku, 0)
  }

  /** The competitor record built from a seller row, when both of its money cells parse. */
  function Convert(o: Offer, parse: string -> Option<real>): Option<Competitor> {
    match Amount(parse, o.price)
    case None => None
    case Some(p) =>
      match Amount(parse, o.shipping)
      case None => None
      case Some(s) => Some(Competitor(o.seller, p, s))
  }

  /** The cell whose conversion raises first: the price is converted before the
      shipping. */
  function FailingCell(o: Offer, parse: string -> Option<real>): string {
    if Amount(parse, o.price).None? then o.price else o.shipping
  }

  /** All records of a group, when every one of them converts. */
  function ConvertAll(offers: seq<Offer>, parse: string -> Option<real>): (r: Option<seq<Competitor>>)
    ensures r.Some? ==> |r.value| == |offers|
  {
    if offers == [] then Some([])
    else
      match Convert(offers[0], parse)
      case None => None
      case Some(c) =>
        match ConvertAll(offers[1..], parse)
        case None => None
        case Some(cs) => Some([c] + cs)
  }

  /** The group converts exactly when every record does. */
  lemma {:induction false} ConvertAllSome(offers: seq<Offer>, parse: string -> Option<real>)
    ensures ConvertAll(offers, parse).Some? <==> forall k :: 0 <= k < |offers| ==> Convert(offers[k], parse).Some?
  {
    if offers != [] {
      var tail := offers[1..];
      ConvertAllSome(tail, parse);
      assert ConvertAll(offers, parse).Some? <==> Convert(offers[0], parse).Some? && ConvertAll(tail, parse).Some?;
      if forall k :: 0 <= k < |offers| ==> Convert(offers[k], parse).Some? {
        forall k | 0 <= k < |tail|
          ensures Convert(tail[k], parse).Some?
        {
          assert tail[k] == offers[k + 1];
        }
      }
      if ConvertAll(offers, parse).Some? {
        forall k | 0 <= k < |offers|
          ensures Convert(offers[k], parse).Some?
        {
          if k > 0 {
            assert offers[k] == tail[k - 1];
          }
        }
      }
    }
  }

  /** A converted group holds the records' conversions, record by record. */
  lemma {:induction false} ConvertAllAt(offers: seq<Offer>, parse: string -> Option<real>)
    requires ConvertAll(offers, parse).Some?
    ensures forall k :: 0 <= k < |offers| ==>
      Convert(offers[k], parse).Some? && ConvertAll(offers, parse).value[k] == Convert(offers[k], parse).value
  {
    if offers != [] {
      var tail := offers[1..];
      var c := Convert(offers[0], parse);
      assert c.Some?;
      ConvertAllAt(tail, parse);
      var r := ConvertAll(offers, parse).value;
      assert r == [c.value] + ConvertAll(tail, parse).value;
      forall k | 0 < k < |offers|
        ensures Convert(offers[k], parse).Some? && r[k] == Convert(offers[k], parse).value
      {
        assert offers[k] == tail[k - 1];
      }
    }
  }

  /** The append loop over one group: records are appended one by one until a
      money cell fails to parse (price first, then shipping). */
  function AppendGroup(comps: seq<Competitor>, offers: seq<Offer>, parse: string -> Option<real>): (r: AppendOutcome)
    decreases |offers|
    ensures comps <= r.competitors && |r.competitors| <= |comps| + |offers|
    ensures r.error.None? <==> ConvertAll(offers, parse).Some?
    ensures r.error.None? ==> r.competitors == comps + ConvertAll(offers, parse).value
  {
    if offers == [] then AppendOutcome(comps, None)
    else
      match Convert(offers[0], parse)
      case None => AppendOutcome(comps, Some(BadAmount(FailingCell(offers[0], parse))))
      case Some(c) => AppendGroup(comps + [c], offers[1..], parse)
  }

  /** Appends the group to the competitors of an existing entry. */
  function AppendToListing(t: Table, sku: string, offers: seq<Offer>, parse: string -> Option<real>): ImportOutcome
    requires sku in t.rows
  {
    var a := AppendGroup(t.rows[sku].competitors, offers, parse);
    ImportOutcome(Put(t, sku, t.rows[sku].(competitors := a.competitors)), a.error)
  }

  /** One iteration of the group loop. */
  function ImportKey(t: Table, rows: seq<Row>, sku: string, parse: string -> Option<real>): ImportOutcome {
    var group := Group(rows, sku);
    if sku in t.rows then AppendToListing(t, sku, group, parse)
    else
      match OwnRowIndex(rows, sku)
      case None => ImportOutcome(t, Some(MissingOwnRow(sku)))
      case Some(i) =>
        match Amount(parse, rows[i].price)
        case None => ImportOutcome(t, Some(BadAmount(rows[i].price)))
        case Some(p) =>
          match Amount(parse, rows[i].shipping)
          case None => ImportOutcome(t, Some(BadAmount(rows[i].shipping)))
          case Some(s) => AppendToListing(Put(t, sku, Listing(p, s, [])), sku, group, parse)
  }

  /** The whole group loop, stopping at the first error. */
  function ImportAll(t: Table, rows: seq<Row>, order: seq<string>, parse: string -> Option<real>): ImportOutcome
    decreases |order|
  {
    if order == [] then ImportOutcome(t, None)
    else
      var o := ImportKey(t, rows, order[0], parse);
      if o.error.Some? then o else ImportAll(o.table, rows, order[1..], parse)
  }

  /** The entry of `sku` in `t`, if any. */
  function Lookup(t: Table, sku: string): Option<Listing> {
    if sku in t.rows then Some(t.rows[sku]) else None
  }

  /** What a successful import makes of the entry for `sku`, given the entry it
      had before (`None` for a new SKU): an existing entry keeps its own price and
      shipping and has the group's records appended in order; a new entry takes
      its own price and shipping from the first own row of `sku` and holds
      exactly the group's records. */
  ghost predicate ImportedAs(before: Option<Listing>, rows: seq<Row>, sku: string, parse: string -> Option<real>, l: Listing) {
    var conv := ConvertAll(Group(rows, sku), parse);
    && conv.Some?
    && match before
       case Some(prev) => l == prev.(competitors := prev.competitors + conv.value)
       case None =>
         && OwnRowIndex(rows, sku).Some?
         && Amount(parse, rows[OwnRowIndex(rows, sku).value].price) == Some(l.myPrice)
         && Amount(parse, rows[OwnRowIndex(rows, sku).value].shipping) == Some(l.myShipping)
         && l.competitors == conv.value
  }

  /** One group: on success the entry for `sku` is as `ImportedAs` says; a new
      SKU without an own row fails with the table untouched. */
  lemma ImportKeyEntry(t: Table, rows: seq<Row>, sku: string, parse: string -> Option<real>)
    ensures var o := ImportKey(t, rows, sku, parse);
      o.error.None? ==> sku in o.table.rows && ImportedAs(Lookup(t, sku), rows, sku, parse, o.table.rows[sku])
    ensures sku !in t.rows && OwnRowIndex(rows, sku).None? ==>
      ImportKey(t, rows, sku, parse) == ImportOutcome(t, Some(MissingOwnRow(sku)))
  {
    if sku !in t.rows && OwnRowIndex(rows, sku).Some? {
      var i := OwnRowIndex(rows, sku).value;
      var p, s := Amount(parse, rows[i].price), Amount(parse, rows[i].shipping);
      if p.Some? && s.Some? {
        var created := Put(t, sku, Listing(p.value, s.value, []));
        assert ImportKey(t, rows, sku, parse) == AppendToListing(created, sku, Group(rows, sku), parse);
      }
    }
  }

  /** One group changes no other entry, has an entry for `sku` on success, only
      ever grows the iteration order at the end, and keeps the table well formed. */
  lemma ImportKeyFrame(t: Table, rows: seq<Row>, sku: string, parse: string -> Option<real>)
    ensures var o := ImportKey(t, rows, sku, parse); o.error.None? ==> sku in o.table.rows
    ensures var o := ImportKey(t, rows, sku, parse);
      forall k :: k != sku ==> (k in o.table.rows <==> k in t.rows) && (k in t.rows ==> o.table.rows[k] == t.rows[k])
    ensures t.keys <= ImportKey(t, rows, sku, parse).table.keys
    ensures t.Valid() ==> ImportKey(t, rows, sku, parse).table.Valid()
  {
    if sku !in t.rows && OwnRowIndex(rows, sku).Some? {
      var i := OwnRowIndex(rows, sku).value;
      var p, s := Amount(parse, rows[i].price), Amount(parse, rows[i].shipping);
      if p.Some? && s.Some? {
        var created := Put(t, sku, Listing(p.value, s.value, []));
        assert ImportKey(t, rows, sku, parse) == AppendToListing(created, sku, Group(rows, sku), parse);
      }
    }
  }

  /** The group loop touches only the grouped SKUs, only appends to the
      iteration order, and keeps the table well formed; on success the SKUs are
      the old ones plus the grouped ones. */
  lemma {:induction false} ImportAllFrame(t: Table, rows: seq<Row>, order: seq<string>, parse: string -> Option<real>)
    ensures var o := ImportAll(t, rows, order, parse);
      forall k :: k !in order ==> (k in o.table.rows <==> k in t.rows) && (k in t.rows ==> o.table.rows[k] == t.rows[k])
    ensures var o := ImportAll(t, rows, order, parse);
      o.error.None? ==> forall k :: k in o.table.rows <==> k in t.rows || k in order
    ensures t.keys <= ImportAll(t, rows, order, parse).table.keys
    ensures t.Valid() ==> ImportAll(t, rows, order, parse).table.Valid()
    decreases |order|
  {
    if order != [] {
      var o := ImportKey(t, rows, order[0], parse);
      ImportKeyFrame(t, rows, order[0], parse);
      if o.error.None? {
        ImportAllFrame(o.table, rows, order[1..], parse);
        assert forall k :: k in order <==> k == order[0] || k in order[1..];
        var fin := ImportAll(o.table, rows, order[1..], parse).table;
        assert t.keys <= o.table.keys <= fin.keys;
      }
    }
  }

  /** A successful import leaves the entry of a grouped SKU as `ImportedAs` says. */
  lemma {:induction false} ImportAllEntry(t: Table, rows: seq<Row>, order: seq<string>, parse: string -> Option<real>, sku: string)
    requires forall i, j :: 0 <= i < j < |order| ==> order[i] != order[j]
    requires sku in order
    ensures ImportAll(t, rows, order, parse).error.None? ==>
      sku in ImportAll(t, rows, order, parse).table.rows &&
      ImportedAs(Lookup(t, sku), rows, sku, parse, ImportAll(t, rows, order, parse).table.rows[sku])
    decreases |order|
  {
    var head := order[0];
    var o := ImportKey(t, rows, head, parse);
    var rest := order[1..];
    if o.error.None? {
      var fin := ImportAll(o.table, rows, rest, parse);
      assert ImportAll(t, rows, order, parse) == fin;
      if sku == head {
        assert sku !in rest by {
          forall j | 0 <= j < |rest| ensures rest[j] != sku {
            assert rest[j] == order[j + 1];
          }
        }
        ImportKeyEntry(t, rows, head, parse);
        ImportAllFrame(o.table, rows, rest, parse);
      } else {
        assert sku in rest;
        assert forall i, j :: 0 <= i < j < |rest| ==> rest[i] != rest[j] by {
          forall i, j | 0 <= i < j < |rest| ensures rest[i] != rest[j] {
            assert rest[i] == order[i + 1] && rest[j] == order[j + 1];
          }
        }
        ImportAllEntry(o.table, rows, rest, parse, sku);
        ImportKeyFrame(t, rows, head, parse);
        assert Lookup(o.table, sku) == Lookup(t, sku);
      }
    }
  }

  /** A successful import leaves every grouped SKU as `ImportedAs` says. */
  lemma ImportAllEffect(t: Table, rows: seq<Row>, order: seq<string>, parse: string -> Option<real>)
    requires forall i, j :: 0 <= i < j < |order| ==> order[i] != order[j]
    ensures ImportAll(t, rows, order, parse).error.None? ==>
      forall sku :: sku in order ==>
        (sku in ImportAll(t, rows, order, parse).table.rows &&
         ImportedAs(Lookup(t, sku), rows, sku, parse, ImportAll(t, rows, order, parse).table.rows[sku]))
  {
    forall sku | sku in order
      ensures ImportAll(t, rows, order, parse).error.None? ==>
        sku in ImportAll(t, rows, order, parse).table.rows &&
        ImportedAs(Lookup(t, sku), rows, sku, parse, ImportAll(t, rows, order, parse).table.rows[sku])
    {
      ImportAllEntry(t, rows, order, parse, sku);
    }
  }
}
