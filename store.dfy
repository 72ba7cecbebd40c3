/** The session state of the dashboard: the `listings` dict (its entries and
    their insertion order) and the undo buffer of (SKU, competitor) pairs, with
    the operations that change them in place. */
module Store {
  import opened Wrappers
  import opened Listings
  import opened Importing
  import opened Exporting
  import opened ProductForm
  import opened Text

  /** What pressing "Undo Last Delete" did. `UnknownSku`: the last pair was popped
      but its SKU is not in the dict, so the lookup raised and the pair is lost. */
  datatype UndoOutcome = NothingToUndo | Restored(sku: string, entry: Competitor) | UnknownSku(sku: string, entry: Competitor)

  /** The loop of the add-product handler over the zipped triples: a triple
      whose price or shipping does not parse is skipped, the others are appended
      in order. */
  method ParseForm(triples: seq<Triple>, parse: string -> Option<real>) returns (comps: seq<Competitor>)
    ensures comps == ParseTriples(triples, parse)
  {
    comps := [];
    for k := 0 to |triples|
      invariant comps == ParseTriples(triples[..k], parse)
    {
      var t := triples[k];
      ParseTriplesSnoc(triples, k, parse);
      var price := parse(Remove(t.price, '$'));
      if price.None? {
        continue;
      }
      var shipping := parse(Remove(t.shipping, '$'));
      if shipping.None? {
        continue;
      }
      comps := comps + [Competitor(t.seller, price.value, shipping.value)];
    }
    assert triples[..|triples|] == triples;
  }

  /** One SKU's turn of the export loop: its own row, then one row per
      competitor, appended to `out`. */
  method ExportBlock(out: seq<ExportRow>, sku: string, data: Listing) returns (r: seq<ExportRow>)
    ensures r == out + Block(sku, data)
  {
    r := out + [YouRow(sku, data)];
    for j := 0 to |data.competitors|
      invariant r == out + [YouRow(sku, data)] + CompetitorRows(sku, data.competitors[..j])
    {
      var comp := data.competitors[j];
      CompetitorRowsSnoc(sku, data.competitors, j);
      r := r + [ExportRow(sku, comp.seller, comp.price, comp.shipping, comp.price + comp.shipping)];
    }
    assert data.competitors[..|data.competitors|] == data.competitors;
  }

  /** The append loop over one group: each seller row becomes a competitor at
      the end of `comps`, until a money cell fails to parse; the records
      appended before the failure stay. */
  method AppendOffersTo(comps: seq<Competitor>, group: seq<Offer>, parse: string -> Option<real>)
    returns (r: seq<Competitor>, error: Option<ImportError>)
    ensures AppendGroup(comps, group, parse) == AppendOutcome(r, error)
  {
    r := comps;
    var j := 0;
    while j < |group|
      invariant 0 <= j <= |group|
      invariant AppendGroup(r, group[j..], parse) == AppendGroup(comps, group, parse)
    {
      var offer := group[j];
      assert group[j..][0] == offer && group[j..][1..] == group[j + 1..];
      var price := Amount(parse, offer.price);
      if price.None? {
        return r, Some(BadAmount(offer.price));
      }
      var shipping := Amount(parse, offer.shipping);
      if shipping.None? {
        return r, Some(BadAmount(offer.shipping));
      }
      r := r + [Competitor(offer.seller, price.value, shipping.value)];
      j := j + 1;
    }
    error := None;
  }

  class ListingStore {
    var keys: seq<string>
    var listings: map<string, Listing>
    var undoBuffer: seq<(string, Competitor)>

    /** The dict as a value. */
    function Snapshot(): Table
      reads this
    {
      Table(keys, listings)
    }

    ghost predicate Valid()
      reads this
    {
      Snapshot().Valid()
    }

    /** A new session: no listings and an empty undo buffer. */
    constructor ()
      ensures Valid()
      ensures keys == [] && listings == map[] && undoBuffer == []
    {
      keys := [];
      listings := map[];
      undoBuffer := [];
    }

    /** Imports already-split CSV rows, visiting the groups in `order`. The new
        dict is what the group loop computes from the old one; on an error the
        groups handled before it stay imported. The undo buffer is untouched. */
    method Import(rows: seq<Row>, order: seq<string>, parse: string -> Option<real>) returns (error: Option<ImportError>)
      requires Valid()
      requires GroupOrder(rows, order)
      modifies this
      ensures Valid()
      ensures ImportAll(old(Snapshot()), rows, order, parse) == ImportOutcome(Snapshot(), error)
      ensures undoBuffer == old(undoBuffer)
    {
      var i := 0;
      while i < |order|
        invariant 0 <= i <= |order|
        invariant Valid()
        invariant ImportAll(Snapshot(), rows, order[i..], parse) == ImportAll(old(Snapshot()), rows, order, parse)
        invariant undoBuffer == old(undoBuffer)
      {
        assert order[i..][0] == order[i] && order[i..][1..] == order[i + 1..];
        error := ImportGroup(rows, order[i], parse);
        if error.Some? {
          return;
        }
        i := i + 1;
      }
      error := None;
    }

    /** One pass of the group loop: a SKU new to the dict is first created from
        its own row, then the group's seller rows are appended. A missing own row
        gives `MissingOwnRow` and an own-row amount that does not parse gives
        `BadAmount`, both with the dict unchanged. */
    method ImportGroup(rows: seq<Row>, sku: string, parse: string -> Option<real>) returns (error: Option<ImportError>)
      requires Valid()
      modifies this
      ensures Valid()
      ensures ImportKey(old(Snapshot()), rows, sku, parse) == ImportOutcome(Snapshot(), error)
      ensures undoBuffer == old(undoBuffer)
    {
      if sku !in listings {
        var own := OwnRowIndex(rows, sku);
        if own.None? {
          return Some(MissingOwnRow(sku));
        }
        var row := rows[own.value];
        var price := Amount(parse, row.price);
        if price.None? {
          return Some(BadAmount(row.price));
        }
        var shipping := Amount(parse, row.shipping);
        if shipping.None? {
          return Some(BadAmount(row.shipping));
        }
        var t := Put(Snapshot(), sku, Listing(price.value, shipping.value, []));
        keys, listings := t.keys, t.rows;
      }
      error := AppendOffers(sku, Group(rows, sku), parse);
    }

    /** The append loop over a group: each seller row becomes a competitor at the
        end of the SKU's list, until a money cell fails to parse. */
    method AppendOffers(sku: string, group: seq<Offer>, parse: string -> Option<real>) returns (error: Option<ImportError>)
      requires Valid()
      requires sku in listings
      modifies this
      ensures Valid()
      ensures AppendToListing(old(Snapshot()), sku, group, parse) == ImportOutcome(Snapshot(), error)
      ensures undoBuffer == old(undoBuffer)
    {
      var entry := listings[sku];
      var comps;
      comps, error := AppendOffersTo(entry.competitors, group, parse);
      listings := listings[sku := entry.(competitors := comps)];
    }

    /** The add-product form: with an empty SKU nothing happens; otherwise the
        entry for the SKU is replaced wholesale by the submitted price, shipping
        and parsed competitor triples, and no other entry changes. The price and
        shipping come from number inputs whose minimum is 0. */
    method AddProduct(sku: string, myPrice: real, myShipping: real,
                      sellerText: string, priceText: string, shippingText: string,
                      parse: string -> Option<real>)
      requires Valid()
      requires 0.0 <= myPrice && 0.0 <= myShipping
      modifies this
      ensures Valid()
      ensures sku == [] ==> keys == old(keys) && listings == old(listings)
      ensures sku != [] ==>
        (Snapshot() ==
         Put(old(Snapshot()), sku, Listing(myPrice, myShipping, FormCompetitors(sellerText, priceText, shippingText, parse))))
      ensures undoBuffer == old(undoBuffer)
    {
      if sku == [] {
        return;
      }
      var comps := ParseForm(Zip(Lines(sellerText), Lines(priceText), Lines(shippingText)), parse);
      var t := Put(Snapshot(), sku, Listing(myPrice, myShipping, comps));
      keys, listings := t.keys, t.rows;
    }

    /** The editable competitor table: the SKU's competitor list becomes the
        edited list verbatim; its own price and shipping, the other entries, the
        order of the dict and the undo buffer are unchanged. */
    method ReplaceCompetitors(sku: string, edited: seq<Competitor>)
      requires Valid()
      requires sku in listings
      modifies this
      ensures Valid()
      ensures keys == old(keys)
      ensures listings == old(listings)[sku := old(listings)[sku].(competitors := edited)]
      ensures undoBuffer == old(undoBuffer)
    {
      var entry := listings[sku];
      listings := listings[sku := entry.(competitors := edited)];
    }

    /** "Undo Last Delete": with an empty buffer nothing happens; otherwise the
        last pair is popped and its competitor is appended to the end of that
        SKU's list, every other entry and the rest of the buffer staying as they
        were. If the SKU is no longer in the dict the pair is popped all the same
        and nothing else changes. */
    method Undo() returns (outcome: UndoOutcome)
      requires Valid()
      modifies this
      ensures Valid()
      ensures keys == old(keys)
      ensures old(undoBuffer) == [] ==>
        outcome == NothingToUndo && undoBuffer == old(undoBuffer) && listings == old(listings)
      ensures old(undoBuffer) != [] ==>
        var (sku, entry) := old(undoBuffer)[|old(undoBuffer)| - 1];
        && undoBuffer == old(undoBuffer)[..|old(undoBuffer)| - 1]
        && (sku in old(listings) ==>
              outcome == Restored(sku, entry) &&
              listings == old(listings)[sku := old(listings)[sku].(competitors := old(listings)[sku].competitors + [entry])])
        && (sku !in old(listings) ==> outcome == UnknownSku(sku, entry) && listings == old(listings))
    {
      if undoBuffer == [] {
        return NothingToUndo;
      }
      var (sku, entry) := undoBuffer[|undoBuffer| - 1];
      undoBuffer := undoBuffer[..|undoBuffer| - 1];
      if sku !in listings {
        return UnknownSku(sku, entry);
      }
      var l := listings[sku];
      listings := listings[sku := l.(competitors := l.competitors + [entry])];
      outcome := Restored(sku, entry);
    }

    /** "Export CSV": the rows of every SKU in dict order, built by appending. */
    method Export() returns (out: seq<ExportRow>)
      requires Valid()
      ensures out == ExportRows(keys, listings)
    {
      out := [];
      for i := 0 to |keys|
        invariant out == ExportRows(keys[..i], listings)
      {
        var sku := keys[i];
        out := ExportBlock(out, sku, listings[sku]);
        ExportRowsSnoc(keys, listings, i);
      }
      assert keys[..|keys|] == keys;
    }
  }
}
