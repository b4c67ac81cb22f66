/** The product listing page: the search filter over the loaded products,
    the stock badges on each card, and the empty/count wording. */
module ProductsPage {
  import opened Wrappers
  import opened StoreTypes
  import opened Text
  import opened Seqs

  /** The filter callback for an already lowered query `q`: name, description
      or (when present) category, each lowered, contains `q`. */
  predicate MatchesLowered(p: Product, q: string) {
    || Includes(Lower(p.name), q)
    || Includes(Lower(p.description), q)
    || (p.category.Some? && Includes(Lower(p.category.value), q))
  }

  /** A product matches a search query when it matches the lowered query. */
  predicate Matches(p: Product, query: string) {
    MatchesLowered(p, Lower(query))
  }

  /** `products.filter(...)` with the lowered query, in list order. */
  function KeepMatching(ps: seq<Product>, q: string): seq<Product> {
    Select(ps, p => MatchesLowered(p, q))
  }

  /** The search effect: a query that trims to "" shows every product, any
      other query is lowered (but not trimmed) and filters the list. */
  function Filter(ps: seq<Product>, query: string): seq<Product> {
    if Trim(query) == "" then ps else KeepMatching(ps, Lower(query))
  }

  /** The search result is always an order-preserving subsequence of the list. */
  lemma FilterIsSubsequence(ps: seq<Product>, query: string)
    ensures IsSubsequence(Filter(ps, query), ps)
  {
    var idx := FilterPositions(ps, query);
  }

  /** A blank query (whitespace only, or empty) leaves the list unchanged. */
  lemma FilterBlankQuery(ps: seq<Product>, query: string)
    requires IsBlank(query)
    ensures Filter(ps, query) == ps
  {
    TrimEmptyIffBlank(query);
  }

  /** Soundness and completeness: a product is shown if and only if it is in
      the list and the query is blank or the product matches the query. */
  lemma FilterMembership(ps: seq<Product>, query: string, p: Product)
    ensures p in Filter(ps, query) <==> p in ps && (IsBlank(query) || Matches(p, query))
  {
    TrimEmptyIffBlank(query);
  }

  /** Every position of the list is shown exactly when the query is blank or
      the product there matches; the result is those positions, in order. */
  lemma FilterPositions(ps: seq<Product>, query: string) returns (idx: seq<int>)
    ensures SubsequenceVia(Filter(ps, query), ps, idx)
    ensures forall i :: 0 <= i < |ps| ==> (i in idx <==> IsBlank(query) || Matches(ps[i], query))
  {
    TrimEmptyIffBlank(query);
    if IsBlank(query) {
      idx := AllPositions(ps);
    } else {
      idx := SelectPositions(ps, p => MatchesLowered(p, Lower(query)));
    }
  }

  /** An absent category never makes a product match. */
  lemma AbsentCategoryNeverMatches(p: Product, query: string)
    requires p.category.None?
    ensures Matches(p, query) <==>
      Includes(Lower(p.name), Lower(query)) || Includes(Lower(p.description), Lower(query))
  {
  }

  /** Queries that differ only in letter case give the same result. */
  lemma FilterIgnoresCase(ps: seq<Product>, q1: string, q2: string)
    requires SameIgnoringCase(q1, q2)
    ensures Filter(ps, q1) == Filter(ps, q2)
  {
    LowerPreservesBlank(q1);
    LowerPreservesBlank(q2);
    TrimEmptyIffBlank(q1);
    TrimEmptyIffBlank(q2);
  }

  /** The sample product of the two lemmas below. */
  const Shirt := Product(1, "Shirt", "Tee", Price(9.99), 3, None, None)

  /** Trimming only decides blankness: a non-blank query keeps its spaces, so
      "shirt " does not find a product named "Shirt" while "shirt" does. */
  lemma FilterDoesNotTrimQuery()
    ensures Filter([Shirt], "shirt ") == []
    ensures Filter([Shirt], "shirt") == [Shirt]
  {
    TrailingSpaceMisses();
    ExactQueryFinds();
  }

  lemma TrailingSpaceMisses()
    ensures Filter([Shirt], "shirt ") == []
  {
    assert !IsBlank("shirt ") by {
      assert !IsWhitespace("shirt "[0]);
    }
    TrimEmptyIffBlank("shirt ");
    assert Lower("Shirt") == "shirt";
    assert Lower("Tee") == "tee";
    assert Lower("shirt ") == "shirt ";
    assert !MatchesLowered(Shirt, "shirt ") by {
      IncludesNeedsRoom("shirt", "shirt ");
      IncludesNeedsRoom("tee", "shirt ");
    }
  }

  lemma ExactQueryFinds()
    ensures Filter([Shirt], "shirt") == [Shirt]
  {
    assert !IsBlank("shirt") by {
      assert !IsWhitespace("shirt"[0]);
    }
    TrimEmptyIffBlank("shirt");
    assert Lower("Shirt") == "shirt";
    assert Lower("shirt") == "shirt";
    assert MatchesLowered(Shirt, "shirt") by {
      assert OccursAt("shirt", "shirt", 0);
    }
  }

  /** The "Low Stock" badge condition. */
  predicate ShowsLowStock(stock: int) {
    stock <= 10 && stock > 0
  }

  /** The "Out of Stock" badge condition. */
  predicate ShowsOutOfStock(stock: int) {
    stock == 0
  }

  /** What one product card shows besides its fixed fields. A JavaScript
      empty string is falsy, so an empty category or image URL is not shown. */
  datatype ProductCard = ProductCard(
    product: Product,
    lowStockBadge: bool,
    outOfStockBadge: bool,
    categoryLabel: Option<string>,
    showsImage: bool)

  function CardOf(p: Product): ProductCard {
    ProductCard(
      p,
      ShowsLowStock(p.stock),
      ShowsOutOfStock(p.stock),
      if p.category.Some? && p.category.value != "" then p.category else None,
      p.imageUrl.Some? && p.imageUrl.value != "")
  }

  /** Low Stock appears for 1..10 units, Out of Stock for none, never both,
      and a card with more than ten (or a negative count) carries no badge. */
  lemma CardBadges(p: Product)
    ensures CardOf(p).lowStockBadge <==> 1 <= p.stock <= 10
    ensures CardOf(p).outOfStockBadge <==> p.stock == 0
    ensures !(CardOf(p).lowStockBadge && CardOf(p).outOfStockBadge)
    ensures (p.stock > 10 || p.stock < 0) ==>
      !CardOf(p).lowStockBadge && !CardOf(p).outOfStockBadge
  {
  }

  /** A category label and an image appear only for present, non-empty
      values; the label is the category itself. */
  lemma CardOptionalFields(p: Product)
    ensures CardOf(p).categoryLabel.Some? <==> p.category.Some? && p.category.value != ""
    ensures CardOf(p).categoryLabel.Some? ==> CardOf(p).categoryLabel == p.category
    ensures CardOf(p).showsImage <==> p.imageUrl.Some? && p.imageUrl.value != ""
    ensures CardOf(p).product == p
  {
  }

  /** What the listing area shows. */
  datatype ProductsView =
    | Loading
    | NoProductsFound
    | Showing(count: nat, noun: string, cards: seq<ProductCard>)

  /** "product" for exactly one result, "products" otherwise. */
  function CountNoun(n: int): string {
    if n == 1 then "product" else "products"
  }

  function Render(loading: bool, ps: seq<Product>, query: string): ProductsView {
    var shown := Filter(ps, query);
    if loading then Loading
    else if |shown| == 0 then NoProductsFound
    else Showing(|shown|, CountNoun(|shown|), seq(|shown|, i requires 0 <= i < |shown| => CardOf(shown[i])))
  }

  /** Once loaded, "No products found" appears exactly when the search result
      is empty; otherwise one card per result, in result order, under a count
      that says "product" only for exactly one result. Each card is the card
      of its result, so its badges follow that product's stock. */
  lemma RenderWording(ps: seq<Product>, query: string)
    ensures Render(false, ps, query).NoProductsFound? <==> |Filter(ps, query)| == 0
    ensures Render(false, ps, query).Showing? <==> |Filter(ps, query)| > 0
    ensures Render(false, ps, query).Showing? ==>
      var v := Render(false, ps, query);
      && v.count == |Filter(ps, query)|
      && (v.noun == "product" <==> v.count == 1)
      && |v.cards| == v.count
      && (forall i :: 0 <= i < |v.cards| ==> v.cards[i] == CardOf(Filter(ps, query)[i]))
      && (forall i :: 0 <= i < |v.cards| ==>
            && (v.cards[i].lowStockBadge <==> 1 <= Filter(ps, query)[i].stock <= 10)
            && (v.cards[i].outOfStockBadge <==> Filter(ps, query)[i].stock == 0)
            && !(v.cards[i].lowStockBadge && v.cards[i].outOfStockBadge))
  {
    var shown := Filter(ps, query);
    forall i | 0 <= i < |shown| {
      CardBadges(shown[i]);
    }
  }
}
