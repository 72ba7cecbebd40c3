/** Data model of the pricing dashboard: competitor offers, listings, and the
    session's SKU table, which behaves like a Python dict (insertion-ordered). */
module Listings {

  /** One competitor offer recorded for a SKU. */
  datatype Competitor = Competitor(seller: string, price: real, shipping: real)

  /** The user's own offer for a SKU together with the competitor offers, in stored order. */
  datatype Listing = Listing(myPrice: real, myShipping: real, competitors: seq<Competitor>)

  /** What a buyer pays a competitor: price plus shipping. */
  function Total(c: Competitor): real {
    c.price + c.shipping
  }

  /** What a buyer pays the user: own price plus own shipping. */
  function MyTotal(l: Listing): real {
    l.myPrice + l.myShipping
  }

  /** The `listings` dict of the session: `keys` is its iteration order,
      `rows` maps each SKU to its listing. */
  datatype Table = Table(keys: seq<string>, rows: map<string, Listing>) {
    /** Every SKU of the dict appears exactly once in the iteration order. */
    ghost predicate Valid() {
      && (forall k :: k in rows <==> k in keys)
      && (forall k :: multiset(keys)[k] <= 1)
    }
  }

  /** The dict assignment `listings[sku] = l`: the entry for `sku` is replaced
      wholesale, a new SKU goes to the end of the iteration order, an existing
      one keeps its place, and every other entry stays as it was. */
  function Put(t: Table, sku: string, l: Listing): (r: Table)
    ensures sku in r.rows && r.rows[sku] == l
    ensures forall k :: k in r.rows <==> k in t.rows || k == sku
    ensures forall k :: k in t.rows && k != sku ==> r.rows[k] == t.rows[k]
    ensures t.keys <= r.keys && |r.keys| <= |t.keys| + 1
    ensures t.Valid() ==> r.Valid() && (sku in t.rows <==> r.keys == t.keys)
  {
    if sku in t.rows then Table(t.keys, t.rows[sku := l])
    else Table(t.keys + [sku], t.rows[sku := l])
  }
}
