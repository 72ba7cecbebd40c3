/** CSV export: the table flattened into rows (SKU, Seller, Price, Shipping,
    Total), one "You" row per SKU followed by its competitor rows, SKUs in dict
    order. */
module Exporting {
  import opened Listings

  datatype ExportRow = ExportRow(sku: string, seller: string, price: real, shipping: real, total: real)

  /** The user's own row of a SKU. */
  function YouRow(sku: string, l: Listing): ExportRow {
    ExportRow(sku, "You", l.myPrice, l.myShipping, l.myPrice + l.myShipping)
  }

  /** The row of one competitor of a SKU. */
  function CompetitorRow(sku: string, c: Competitor): ExportRow {
    ExportRow(sku, c.seller, c.price, c.shipping, c.price + c.shipping)
  }

  /** One row per competitor, in stored order. */
  function CompetitorRows(sku: string, cs: seq<Competitor>): (r: seq<ExportRow>)
    ensures |r| == |cs|
    ensures forall j :: 0 <= j < |cs| ==> r[j] == CompetitorRow(sku, cs[j])
  {
    if cs == [] then [] else CompetitorRows(sku, cs[..|cs| - 1]) + [CompetitorRow(sku, cs[|cs| - 1])]
  }

  /** The rows a SKU contributes. */
  function Block(sku: string, l: Listing): seq<ExportRow> {
    [YouRow(sku, l)] + CompetitorRows(sku, l.competitors)
  }

  /** Σ (1 + number of competitors) over the given SKUs. */
  function RowCount(keys: seq<string>, rows: map<string, Listing>): nat
    requires forall k :: k in keys ==> k in rows
  {
    if keys == [] then 0
    else RowCount(keys[..|keys| - 1], rows) + 1 + |rows[keys[|keys| - 1]].competitors|
  }

  /** The exported rows: the blocks of the given SKUs, in order. */
  function ExportRows(keys: seq<string>, rows: map<string, Listing>): (r: seq<ExportRow>)
    requires forall k :: k in keys ==> k in rows
    ensures |r| == RowCount(keys, rows)
  {
    if keys == [] then []
    else
      var init := keys[..|keys| - 1];
      var last := keys[|keys| - 1];
      assert forall k :: k in init ==> k in keys;
      ExportRows(init, rows) + Block(last, rows[last])
  }

  /** Every exported row belongs to one of the SKUs and carries Total = Price + Shipping. */
  lemma {:induction false} ExportRowsConsistent(keys: seq<string>, rows: map<string, Listing>)
    requires forall k :: k in keys ==> k in rows
    ensures forall n :: 0 <= n < |ExportRows(keys, rows)| ==>
      ExportRows(keys, rows)[n].total == ExportRows(keys, rows)[n].price + ExportRows(keys, rows)[n].shipping &&
      ExportRows(keys, rows)[n].sku in keys
  {
    if keys != [] {
      var init := keys[..|keys| - 1];
      var last := keys[|keys| - 1];
      assert forall k :: k in init ==> k in keys;
      ExportRowsConsistent(init, rows);
      var before := ExportRows(init, rows);
      var block := Block(last, rows[last]);
      assert ExportRows(keys, rows) == before + block;
      forall n | 0 <= n < |block|
        ensures block[n].total == block[n].price + block[n].shipping && block[n].sku == last
      {
        if n > 0 {
          assert block[n] == CompetitorRow(last, rows[last].competitors[n - 1]);
        }
      }
    }
  }

  /** Appending one competitor appends one row. */
  lemma CompetitorRowsSnoc(sku: string, cs: seq<Competitor>, j: nat)
    requires j < |cs|
    ensures CompetitorRows(sku, cs[..j + 1]) == CompetitorRows(sku, cs[..j]) + [CompetitorRow(sku, cs[j])]
  {
    assert cs[..j + 1][..j] == cs[..j];
  }

  /** Appending one SKU appends its block. */
  lemma ExportRowsSnoc(keys: seq<string>, rows: map<string, Listing>, i: nat)
    requires forall k :: k in keys ==> k in rows
    requires i < |keys|
    ensures forall k :: k in keys[..i + 1] ==> k in rows
    ensures ExportRows(keys[..i + 1], rows) == ExportRows(keys[..i], rows) + Block(keys[i], rows[keys[i]])
  {
    assert keys[..i + 1][..i] == keys[..i];
    assert forall k :: k in keys[..i + 1] ==> k in keys;
  }

  /** The rows of the first `m` SKUs are a prefix of the rows of all of them. */
  lemma {:induction false} ExportRowsPrefix(keys: seq<string>, rows: map<string, Listing>, m: nat)
    requires forall k :: k in keys ==> k in rows
    requires m <= |keys|
    ensures forall k :: k in keys[..m] ==> k in rows
    ensures ExportRows(keys[..m], rows) <= ExportRows(keys, rows)
    decreases |keys|
  {
    assert forall k :: k in keys[..m] ==> k in keys;
    if m == |keys| {
      assert keys[..m] == keys;
    } else {
      var init := keys[..|keys| - 1];
      assert forall k :: k in init ==> k in keys;
      assert keys[..m] == init[..m];
      ExportRowsPrefix(init, rows, m);
      assert ExportRows(init, rows) <= ExportRows(keys, rows);
    }
  }

  /** The block of the `i`-th SKU comes right after the rows of the SKUs
      before it: the exported rows start with those rows followed by its "You"
      row and then one row per competitor in stored order. */
  lemma ExportBlockAt(keys: seq<string>, rows: map<string, Listing>, i: nat)
    requires forall k :: k in keys ==> k in rows
    requires i < |keys|
    ensures forall k :: k in keys[..i] ==> k in rows
    ensures ExportRows(keys[..i], rows) + Block(keys[i], rows[keys[i]]) <= ExportRows(keys, rows)
  {
    ExportRowsSnoc(keys, rows, i);
    ExportRowsPrefix(keys, rows, i + 1);
  }
}
