/**
 * The product card: the stock rule and what it decides, the status text, the overlay
 * and the add-to-cart button. The price line is not part of this model.
 */
module ProductCard {
  import opened Wrappers
  import ApiTypes

  predicate IsInStock(p: ApiTypes.Product) {
    p.stockQuantity > 0
  }

  function StockStatus(p: ApiTypes.Product): string {
    if IsInStock(p) then "In Stock" else "Out of Stock"
  }

  function ButtonLabel(p: ApiTypes.Product): string {
    if IsInStock(p) then "Add to Cart" else "Out of Stock"
  }

  predicate ButtonDisabled(p: ApiTypes.Product) {
    !IsInStock(p)
  }

  /** The card's text nodes in document order: the placeholder, the overlay when out of
      stock, name, description, status and button label. */
  function Texts(p: ApiTypes.Product): seq<string> {
    ["Product Image"] + (if !IsInStock(p) then ["Out of Stock"] else [])
    + [p.name, p.description, StockStatus(p), ButtonLabel(p)]
  }

  /** `onClick={() => onAddToCart?.(product)}` on a button that is disabled out of stock:
      the product handed to the handler, None when nothing is called. */
  function Click(p: ApiTypes.Product, hasHandler: bool): Option<ApiTypes.Product> {
    if ButtonDisabled(p) then None else if hasHandler then Some(p) else None
  }

  /** The status reads "In Stock" exactly for a positive stock (a stock of 3 included:
      there is no low-stock text), and the button is disabled exactly otherwise. */
  lemma StockRules(p: ApiTypes.Product)
    ensures StockStatus(p) == "In Stock" <==> p.stockQuantity > 0
    ensures ButtonDisabled(p) <==> p.stockQuantity <= 0
    ensures ButtonLabel(p) == "Add to Cart" <==> !ButtonDisabled(p)
  {
  }

  /** How many of the text nodes read `x`. */
  function Occurrences(xs: seq<string>, x: string): nat {
    if |xs| == 0 then 0 else (if xs[0] == x then 1 else 0) + Occurrences(xs[1..], x)
  }

  /** Out of stock the text "Out of Stock" appears three times (overlay, status, button),
      in stock not at all, as long as the product's own name and description are not
      that text. */
  lemma OutOfStockCount(p: ApiTypes.Product)
    requires p.name != "Out of Stock" && p.description != "Out of Stock"
    ensures Occurrences(Texts(p), "Out of Stock") == if IsInStock(p) then 0 else 3
  {
    var t := Texts(p);
    var tail := [p.name, p.description, StockStatus(p), ButtonLabel(p)];
    assert "Product Image" != "Out of Stock";
    assert "Add to Cart" != "Out of Stock";
    assert "In Stock" != "Out of Stock";
    assert tail[1..][1..][1..][1..] == [];
    var k := if IsInStock(p) then 0 else 2;
    assert Occurrences(tail[1..][1..][1..], "Out of Stock") == k / 2;
    assert Occurrences(tail[1..][1..], "Out of Stock") == k;
    assert Occurrences(tail[1..], "Out of Stock") == k;
    assert Occurrences(tail, "Out of Stock") == k;
    if IsInStock(p) {
      assert t[1..] == tail;
    } else {
      assert t[1..][1..] == tail;
      assert t[1] == "Out of Stock";
    }
  }

  /** A click hands the very same product to the handler exactly when the product is in
      stock and a handler was given. */
  lemma ClickRules(p: ApiTypes.Product, hasHandler: bool)
    ensures Click(p, hasHandler).Some? <==> IsInStock(p) && hasHandler
    ensures Click(p, hasHandler).Some? ==> Click(p, hasHandler).value == p
  {
  }
}
