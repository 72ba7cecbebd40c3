/** The add-product form: the three competitor text areas are stripped and split
    into lines, paired up by position (`zip`, so extra lines are ignored), and a
    triple whose price or shipping does not parse is skipped. Unlike the CSV
    import, only '$' is removed before parsing. */
module ProductForm {
  import opened Wrappers
  import opened Listings
  import opened Text

  /** `text.strip().splitlines()`. */
  function Lines(text: string): seq<string> {
    SplitLines(Strip(text))
  }

  /** A stripped text never ends in a line boundary, since every boundary is
      whitespace: its last line ends the text. */
  lemma LinesEndText(text: string)
    ensures var t := Strip(text); t != [] ==> LineEnds(t) != [] && LineEnds(t)[|LineEnds(t)| - 1] == []
  {
    var t := Strip(text);
    if t != [] {
      assert !IsLineBreak(t[|t| - 1]);
      LastLineUnended(t);
    }
  }

  /** The length of `zip(sellers, prices, shipping)`. */
  function ZipLength(sellers: seq<string>, prices: seq<string>, shipping: seq<string>): (n: nat)
    ensures n <= |sellers| && n <= |prices| && n <= |shipping|
    ensures n == |sellers| || n == |prices| || n == |shipping|
  {
    if |sellers| <= |prices| && |sellers| <= |shipping| then |sellers|
    else if |prices| <= |shipping| then |prices|
    else |shipping|
  }

  /** One line of each text area, paired by position. */
  datatype Triple = Triple(seller: string, price: string, shipping: string)

  /** `zip(sellers, prices, shipping)`. */
  function Zip(sellers: seq<string>, prices: seq<string>, shipping: seq<string>): (r: seq<Triple>)
    ensures |r| == ZipLength(sellers, prices, shipping)
    ensures forall k :: 0 <= k < |r| ==> r[k] == Triple(sellers[k], prices[k], shipping[k])
  {
    seq(ZipLength(sellers, prices, shipping), k requires 0 <= k < ZipLength(sellers, prices, shipping) =>
      Triple(sellers[k], prices[k], shipping[k]))
  }

  /** The competitor built from a triple, when `float(p.replace("$", ""))` and
      `float(sh.replace("$", ""))` both succeed (`parse` stands for `float`,
      `None` when it raises). */
  function Parsed(t: Triple, parse: string -> Option<real>): Option<Competitor> {
    match parse(Remove(t.price, '$'))
    case None => None
    case Some(p) =>
      match parse(Remove(t.shipping, '$'))
      case None => None
      case Some(s) => Some(Competitor(t.seller, p, s))
  }

  /** The competitors the form's loop over the triples collects: the triples
      that parse, in order. */
  function ParseTriples(ts: seq<Triple>, parse: string -> Option<real>): (r: seq<Competitor>)
    ensures |r| <= |ts|
  {
    if ts == [] then []
    else
      var r := ParseTriples(ts[..|ts| - 1], parse);
      match Parsed(ts[|ts| - 1], parse)
      case None => r
      case Some(c) => r + [c]
  }

  /** Every competitor comes from a triple that parses. */
  lemma {:induction false} ParseTriplesSound(ts: seq<Triple>, parse: string -> Option<real>)
    ensures forall c :: c in ParseTriples(ts, parse) ==> exists k :: 0 <= k < |ts| && Parsed(ts[k], parse) == Some(c)
  {
    if ts != [] {
      var init := ts[..|ts| - 1];
      ParseTriplesSound(init, parse);
      assert forall k :: 0 <= k < |init| ==> init[k] == ts[k];
    }
  }

  /** Every triple that parses contributes its competitor. */
  lemma {:induction false} ParseTriplesComplete(ts: seq<Triple>, parse: string -> Option<real>)
    ensures forall k :: 0 <= k < |ts| && Parsed(ts[k], parse).Some? ==> Parsed(ts[k], parse).value in ParseTriples(ts, parse)
  {
    if ts != [] {
      var init := ts[..|ts| - 1];
      ParseTriplesComplete(init, parse);
      var r := ParseTriples(init, parse);
      var c := Parsed(ts[|ts| - 1], parse);
      assert ParseTriples(ts, parse) == if c.Some? then r + [c.value] else r;
      assert r <= ParseTriples(ts, parse);
      forall k | 0 <= k < |ts| && Parsed(ts[k], parse).Some?
        ensures Parsed(ts[k], parse).value in ParseTriples(ts, parse)
      {
        if k < |init| {
          assert init[k] == ts[k];
          assert Parsed(ts[k], parse).value in r;
        }
      }
    }
  }

  /** When every triple parses, none is lost. */
  lemma {:induction false} ParseTriplesAll(ts: seq<Triple>, parse: string -> Option<real>)
    requires forall k :: 0 <= k < |ts| ==> Parsed(ts[k], parse).Some?
    ensures |ParseTriples(ts, parse)| == |ts|
  {
    if ts != [] {
      var init := ts[..|ts| - 1];
      assert forall k :: 0 <= k < |init| ==> init[k] == ts[k];
      ParseTriplesAll(init, parse);
    }
  }

  /** One more triple adds its competitor if and only if it parses. */
  lemma ParseTriplesSnoc(ts: seq<Triple>, k: nat, parse: string -> Option<real>)
    requires k < |ts|
    ensures ParseTriples(ts[..k + 1], parse) ==
      ParseTriples(ts[..k], parse) + (match Parsed(ts[k], parse) case None => [] case Some(c) => [c])
  {
    assert ts[..k + 1][..k] == ts[..k];
  }

  /** The competitor list the form submits: never more entries than the
      shortest of the three text areas has lines. */
  function FormCompetitors(sellerText: string, priceText: string, shippingText: string,
                           parse: string -> Option<real>): (r: seq<Competitor>)
    ensures |r| <= |Lines(sellerText)| && |r| <= |Lines(priceText)| && |r| <= |Lines(shippingText)|
  {
    ParseTriples(Zip(Lines(sellerText), Lines(priceText), Lines(shippingText)), parse)
  }
}
