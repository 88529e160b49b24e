/**
 * The quantity metric of the cart condition: the nested Where / GroupBy / Aggregate
 * expression of GetCartMetrics, and what it amounts to.
 *
 * Carts and lines are references in the source and may be null: they are modelled
 * as Option values. Quantities are C# decimals (base-10, 28-29 significant digits,
 * rounded when a sum needs more); they are modelled as exact reals, without decimal's
 * range limit or rounding.
 */
module CartMetrics {
  import opened Wrappers
  import opened Enumerable

  datatype Product = Product(productId: string)

  datatype CartLine = CartLine(product: Option<Product>, quantity: real)

  datatype Cart = Cart(externalId: string, lines: seq<Option<CartLine>>)

  predicate HasProduct(line: CartLine)
  {
    line.product.Some?
  }

  /** The grouping key `cartLine.Product.ProductId`; only defined when there is a product. */
  function ProductId(line: CartLine): string
    requires HasProduct(line)
  {
    line.product.value.productId
  }

  /** `lines.Where(cartLine => cartLine != null && cartLine.Product != null)` */
  function ProductLines(lines: seq<Option<CartLine>>): seq<CartLine>
  {
    Where(WhereNotNull(lines), HasProduct)
  }

  /** The folding function `(c, cartLine) => c + cartLine.Quantity`. */
  function AddLineQuantity(count: real, line: CartLine): real
  {
    count + line.quantity
  }

  /** A product group's quantity: `productGroup.Aggregate(0M, AddLineQuantity)`. */
  function GroupQuantity(group: Grouping<string, CartLine>): real
  {
    Aggregate(0.0, group.elements, AddLineQuantity)
  }

  /** The folding function `(partialProductCount, productGroup) => partialProductCount + ...`. */
  function AddGroupQuantity(count: real, group: Grouping<string, CartLine>): real
  {
    count + GroupQuantity(group)
  }

  /** One cart's share of the metric: its product lines grouped by product id, group totals summed. */
  function CartQuantity(cart: Cart): real
  {
    Aggregate(0.0, GroupBy(ProductLines(cart.lines), ProductId), AddGroupQuantity)
  }

  /** The folding function `(productsCount, cart) => productsCount + ...`. */
  function AddCartQuantity(count: real, cart: Cart): real
  {
    count + CartQuantity(cart)
  }

  /** GetCartMetrics: the non-null carts folded from 0 with AddCartQuantity. */
  function GetCartMetrics(carts: seq<Option<Cart>>): real
  {
    Aggregate(0.0, WhereNotNull(carts), AddCartQuantity)
  }

  // ---------------------------------------------------------------------------
  // Reference definitions: what each entry contributes, and the flattened lines

  function Quantity(line: CartLine): real
  {
    line.quantity
  }

  /** A line counts with its quantity when it has a product, and 0 otherwise. */
  function ProductQuantity(line: CartLine): real
  {
    if HasProduct(line) then line.quantity else 0.0
  }

  /** An entry of `cart.Lines` counts as its line's ProductQuantity, or 0 when it is null. */
  function LineContribution(line: Option<CartLine>): real
  {
    if line.Some? then ProductQuantity(line.value) else 0.0
  }

  /** An entry of the cart sequence counts as the sum of its lines' contributions, or 0 when null. */
  function CartContribution(cart: Option<Cart>): real
  {
    if cart.Some? then Sum(cart.value.lines, LineContribution) else 0.0
  }

  /** Every non-null line with a non-null product of every non-null cart, in order. */
  function AllProductLines(carts: seq<Option<Cart>>): seq<CartLine>
  {
    if carts == [] then []
    else (if carts[0].Some? then ProductLines(carts[0].value.lines) else []) + AllProductLines(carts[1..])
  }

  // ---------------------------------------------------------------------------
  // The grouping collapses

  /** Grouping by product id does not change a cart's total: it is the sum over its product lines. */
  lemma CartQuantityIsLineSum(cart: Cart)
    ensures CartQuantity(cart) == Sum(ProductLines(cart.lines), Quantity)
  {
    var lines := ProductLines(cart.lines);
    forall g: Grouping<string, CartLine> ensures GroupQuantity(g) == Sum(g.elements, Quantity) {
      AggregateIsSum(0.0, g.elements, AddLineQuantity, Quantity);
    }
    AggregateIsSum(0.0, GroupBy(lines, ProductId), AddGroupQuantity, GroupQuantity);
    GroupBySum(lines, ProductId, Quantity, GroupQuantity);
  }

  /** A cart's total is the sum of its entries' contributions: nulls and product-less lines add 0. */
  lemma CartQuantityIsContributionSum(cart: Cart)
    ensures CartQuantity(cart) == Sum(cart.lines, LineContribution)
  {
    CartQuantityIsLineSum(cart);
    SumWhere(WhereNotNull(cart.lines), HasProduct, Quantity, ProductQuantity);
    SumWhereNotNull(cart.lines, ProductQuantity, LineContribution);
  }

  /** The metric is the sum of the carts' contributions: null carts add 0. */
  lemma MetricIsContributionSum(carts: seq<Option<Cart>>)
    ensures GetCartMetrics(carts) == Sum(carts, CartContribution)
  {
    AggregateIsSum(0.0, WhereNotNull(carts), AddCartQuantity, CartQuantity);
    forall c: Cart ensures CartQuantity(c) == Sum(c.lines, LineContribution) {
      CartQuantityIsContributionSum(c);
    }
    SumWhereNotNull(carts, CartQuantity, CartContribution);
  }

  /**
   * The metric is the flat sum of Quantity over all non-null lines with a non-null
   * product in all non-null carts.
   */
  lemma {:induction false} MetricIsFlatSum(carts: seq<Option<Cart>>)
    ensures GetCartMetrics(carts) == Sum(AllProductLines(carts), Quantity)
  {
    MetricIsContributionSum(carts);
    FlatSumIsContributionSum(carts);
  }

  lemma {:induction false} FlatSumIsContributionSum(carts: seq<Option<Cart>>)
    ensures Sum(AllProductLines(carts), Quantity) == Sum(carts, CartContribution)
  {
    if carts != [] {
      FlatSumIsContributionSum(carts[1..]);
      var head := if carts[0].Some? then ProductLines(carts[0].value.lines) else [];
      SumConcat(head, AllProductLines(carts[1..]), Quantity);
      if carts[0].Some? {
        CartQuantityIsLineSum(carts[0].value);
        CartQuantityIsContributionSum(carts[0].value);
      }
    }
  }

  // ---------------------------------------------------------------------------
  // Consequences

  /** No carts, or only null carts, give a metric of 0. */
  lemma {:induction false} MetricOfNullCarts(carts: seq<Option<Cart>>)
    requires forall i :: 0 <= i < |carts| ==> carts[i].None?
    ensures GetCartMetrics(carts) == 0.0
  {
    MetricIsContributionSum(carts);
    SumOfNullCarts(carts);
  }

  lemma {:induction false} SumOfNullCarts(carts: seq<Option<Cart>>)
    requires forall i :: 0 <= i < |carts| ==> carts[i].None?
    ensures Sum(carts, CartContribution) == 0.0
  {
    if carts != [] {
      SumOfNullCarts(carts[1..]);
    }
  }

  /** The metric of two cart sequences one after the other is the sum of their metrics. */
  lemma MetricConcat(a: seq<Option<Cart>>, b: seq<Option<Cart>>)
    ensures GetCartMetrics(a + b) == GetCartMetrics(a) + GetCartMetrics(b)
  {
    MetricIsContributionSum(a + b);
    MetricIsContributionSum(a);
    MetricIsContributionSum(b);
    SumConcat(a, b, CartContribution);
  }

  /** A null cart anywhere in the sequence adds nothing. */
  lemma MetricIgnoresNullCart(a: seq<Option<Cart>>, b: seq<Option<Cart>>)
    ensures GetCartMetrics(a + [None] + b) == GetCartMetrics(a + b)
  {
    MetricConcat(a + [None], b);
    MetricConcat(a, [None]);
    MetricOfNullCarts([None]);
    MetricConcat(a, b);
  }

  /** A null line, or a line without a product, anywhere in a cart adds nothing to its total. */
  lemma CartIgnoresLineWithoutProduct(id: string, a: seq<Option<CartLine>>, b: seq<Option<CartLine>>, line: Option<CartLine>)
    requires line.None? || line.value.product.None?
    ensures CartQuantity(Cart(id, a + [line] + b)) == CartQuantity(Cart(id, a + b))
  {
    CartQuantityIsContributionSum(Cart(id, a + [line] + b));
    CartQuantityIsContributionSum(Cart(id, a + b));
    SumConcat(a + [line], b, LineContribution);
    SumConcat(a, [line], LineContribution);
    SumConcat(a, b, LineContribution);
  }

  /** Reordering the carts does not change the metric. */
  lemma MetricPermutation(a: seq<Option<Cart>>, b: seq<Option<Cart>>)
    requires multiset(a) == multiset(b)
    ensures GetCartMetrics(a) == GetCartMetrics(b)
  {
    MetricIsContributionSum(a);
    MetricIsContributionSum(b);
    SumPermutation(a, b, CartContribution);
  }

  /** Reordering the lines of a cart does not change its total. */
  lemma CartLinePermutation(c: Cart, d: Cart)
    requires multiset(c.lines) == multiset(d.lines)
    ensures CartQuantity(c) == CartQuantity(d)
  {
    CartQuantityIsContributionSum(c);
    CartQuantityIsContributionSum(d);
    SumPermutation(c.lines, d.lines, LineContribution);
  }

  /** Reordering the lines of one cart in the sequence does not change the metric. */
  lemma MetricLinePermutation(carts: seq<Option<Cart>>, i: nat, reordered: Cart)
    requires i < |carts| && carts[i].Some?
    requires multiset(reordered.lines) == multiset(carts[i].value.lines)
    ensures GetCartMetrics(carts[i := Some(reordered)]) == GetCartMetrics(carts)
  {
    var before, after := carts[..i], carts[i + 1..];
    assert carts == before + [carts[i]] + after;
    assert carts[i := Some(reordered)] == before + [Some(reordered)] + after;
    MetricConcat(before + [carts[i]], after);
    MetricConcat(before, [carts[i]]);
    MetricConcat(before + [Some(reordered)], after);
    MetricConcat(before, [Some(reordered)]);
    MetricIsContributionSum([carts[i]]);
    MetricIsContributionSum([Some(reordered)]);
    SumPermutation(reordered.lines, carts[i].value.lines, LineContribution);
  }
}
