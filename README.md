# Total product quantity condition — a Dafny model

A model of `TotalProductQuantityCondition`, a Sitecore Commerce rule condition. The
condition works out the current shopper's id. If that id is a user-store name (it contains
`"CommerceUsers"`), it is swapped for the customer's ExternalId through the customer
service. The condition then lists the shopper's carts in the current shop and loads each
one. It sums the quantity of every line that has a product, going through a group-by on
product id. Finally it compares the total with the configured `TotalProductQuantity`,
using one of six relational operators.

Files:

- `wrappers.dfy`: `Option` (a C# reference that may be null) and `Result` (a value or a
  thrown exception).
- `enumerable.dfy`: the LINQ operators the metric is written with (`Where`, a null filter
  `WhereNotNull`, `Select`, `GroupBy` with groups in first-appearance order, and `Aggregate`
  as a left fold). It also holds a reference `Sum`, plus reference definitions of grouping
  (`DistinctKeys`, `WithKey`). Lemmas connect the operators to these references.
- `cart_metrics.dfy`: carts, lines and products; `GetCartMetrics` written exactly as the
  nested `Where`/`GroupBy`/`Aggregate` expression; and its properties.
- `condition_operators.dfy`: the operators, the `CompareTo` sign test, and `Evaluate`, the
  meaning of each operator written with `<`, `==` and `>`.
- `quantity_condition.dfy`: the substring test, id normalisation, the host services, and
  the class `TotalProductQuantityCondition` with its `Execute` method.

Decimal quantities are modelled as exact `real` numbers. A C# `decimal` carries 28 or 29
significant digits and rounds a sum that needs more, with no exception; it also has a
range limit. The real-valued model has neither. So the metric properties proved below
hold for exact sums. Only three survive decimal rounding: an empty or all-null cart list
gives 0, and null carts, null lines or product-less lines add nothing. With rounding, the
order and grouping of the fold can change the result, and so can splitting the carts. The
host services (contact factory, customer service, cart service) are values holding
functions that the model does not look into. `Execute` returns the list of calls it makes
to them, in order, next to its result. That list is how the model states which lookups
happen, in what order, and with which id.

`Execute` reads the current user id through `this.ContactFactory` (line 38) and reaches
the cart service through `this.CartServiceProvider` (line 54). These are the base
class's handles, not the private fields `contactFactory` and `cartServiceProvider` that
this class's constructor builds (lines 27-28); those two fields are never read. The class
therefore holds both: its own three fields, set as at lines 26-28, and the two inherited
handles `baseContactFactory` and `baseCartServiceProvider`, which `Execute` calls. Only
`customerServiceProvider` (line 46) is one of the class's own fields that is used.

`Execute` loads carts lazily, as the code does: the `Select` at line 54 is only enumerated
when `GetCartMetrics` runs inside a supported `switch` case. So with an unsupported
operator, no cart is loaded. The carts are listed, and the error follows. A reading of the
condition as "load every cart, then compare" would say otherwise; the model follows the code.

## Model

| member | source | states |
|---|---|---|
| `Enumerable.Where` | src/Sitecore.Support.251521/Commerce/Rules/Conditions/TotalProductQuantityCondition.cs:91 | The filtered lines are lines of the input that satisfy the predicate, and every input line that satisfies it is kept |
| `Enumerable.WhereCount` | src/Sitecore.Support.251521/Commerce/Rules/Conditions/TotalProductQuantityCondition.cs:91 | `Where` keeps every matching element as many times as it occurs, and no other element |
| `Enumerable.WhereConcat` | src/Sitecore.Support.251521/Commerce/Rules/Conditions/TotalProductQuantityCondition.cs:91 | `Where` keeps source order: filtering a concatenation is concatenating the filtered parts |
| `Enumerable.WhereNotNullCount` | src/Sitecore.Support.251521/Commerce/Rules/Conditions/TotalProductQuantityCondition.cs:91 | The null filter keeps each value as many times as non-null entries hold it |
| `Enumerable.WhereNotNullConcat` | src/Sitecore.Support.251521/Commerce/Rules/Conditions/TotalProductQuantityCondition.cs:91 | The null filter keeps source order: the non-null entries of a concatenation, part by part |
| `Enumerable.WhereNotNull` | src/Sitecore.Support.251521/Commerce/Rules/Conditions/TotalProductQuantityCondition.cs:91 | `Where(x => x != null)` keeps exactly the non-null entries |
| `Enumerable.Select` | src/Sitecore.Support.251521/Commerce/Rules/Conditions/TotalProductQuantityCondition.cs:54 | One output per cart summary, in order, each the function applied to that summary |
| `Enumerable.AggregateIsSum` | src/Sitecore.Support.251521/Commerce/Rules/Conditions/TotalProductQuantityCondition.cs:91 | An `Aggregate` from a seed that adds a value per element equals the seed plus the sum of those values |
| `Enumerable.SumConcat` | src/Sitecore.Support.251521/Commerce/Rules/Conditions/TotalProductQuantityCondition.cs:91 | The sum over a concatenation is the sum of the two sums |
| `Enumerable.SumPointwise` | src/Sitecore.Support.251521/Commerce/Rules/Conditions/TotalProductQuantityCondition.cs:91 | Sums whose terms agree element by element are equal |
| `Enumerable.SumPermutation` | src/Sitecore.Support.251521/Commerce/Rules/Conditions/TotalProductQuantityCondition.cs:91 | The sum does not depend on the order of the elements (equal multisets give equal sums) |
| `Enumerable.SumWhere` | src/Sitecore.Support.251521/Commerce/Rules/Conditions/TotalProductQuantityCondition.cs:91 | Summing after `Where` equals summing everything with the rejected elements counted as 0 |
| `Enumerable.SumWhereNotNull` | src/Sitecore.Support.251521/Commerce/Rules/Conditions/TotalProductQuantityCondition.cs:91 | Summing after dropping nulls equals summing with every null counted as 0 |
| `Enumerable.DistinctKeysMembership` | src/Sitecore.Support.251521/Commerce/Rules/Conditions/TotalProductQuantityCondition.cs:91 | A key is among the distinct keys exactly when some element has it |
| `Enumerable.DistinctKeysNoDuplicates` | src/Sitecore.Support.251521/Commerce/Rules/Conditions/TotalProductQuantityCondition.cs:91 | The distinct keys contain no key twice |
| `Enumerable.WithKeyOfUnseenKey` | src/Sitecore.Support.251521/Commerce/Rules/Conditions/TotalProductQuantityCondition.cs:91 | No element has a key that is missing from the distinct keys |
| `Enumerable.AddToGroupsEffect` | src/Sitecore.Support.251521/Commerce/Rules/Conditions/TotalProductQuantityCondition.cs:91 | Filing an element appends it to the group of its key if there is one, and otherwise opens a new last group; no other group changes |
| `Enumerable.GroupByCharacterization` | src/Sitecore.Support.251521/Commerce/Rules/Conditions/TotalProductQuantityCondition.cs:91 | `GroupBy(ProductId)` gives one group per distinct product id, in order of first appearance, each holding exactly the lines with that id in source order |
| `Enumerable.GroupBySum` | src/Sitecore.Support.251521/Commerce/Rules/Conditions/TotalProductQuantityCondition.cs:91 | Summing each group and then the group totals equals summing the elements |
| `Enumerable.AddToGroupsSum` | src/Sitecore.Support.251521/Commerce/Rules/Conditions/TotalProductQuantityCondition.cs:91 | Filing an element into the groups raises the total of the group totals by that element's value |
| `CartMetrics.CartQuantityIsLineSum` | src/Sitecore.Support.251521/Commerce/Rules/Conditions/TotalProductQuantityCondition.cs:91 | Grouping by product id does not change a cart's total: it is the sum of `Quantity` over its lines that have a product |
| `CartMetrics.CartQuantityIsContributionSum` | src/Sitecore.Support.251521/Commerce/Rules/Conditions/TotalProductQuantityCondition.cs:91 | A cart's total is the sum over its entries, with null lines and product-less lines counting 0 |
| `CartMetrics.MetricIsContributionSum` | src/Sitecore.Support.251521/Commerce/Rules/Conditions/TotalProductQuantityCondition.cs:91 | The metric is the sum over the cart sequence, with null carts counting 0 |
| `CartMetrics.MetricIsFlatSum` | src/Sitecore.Support.251521/Commerce/Rules/Conditions/TotalProductQuantityCondition.cs:91 | The metric equals the flat sum of `Quantity` over all non-null lines with a non-null product in all non-null carts |
| `CartMetrics.FlatSumIsContributionSum` | src/Sitecore.Support.251521/Commerce/Rules/Conditions/TotalProductQuantityCondition.cs:91 | The flat sum over all product lines equals the per-cart sum of contributions |
| `CartMetrics.MetricOfNullCarts` | src/Sitecore.Support.251521/Commerce/Rules/Conditions/TotalProductQuantityCondition.cs:91 | No carts, or only null carts, give a metric of 0 |
| `CartMetrics.SumOfNullCarts` | src/Sitecore.Support.251521/Commerce/Rules/Conditions/TotalProductQuantityCondition.cs:91 | Null carts contribute 0 in total |
| `CartMetrics.MetricConcat` | src/Sitecore.Support.251521/Commerce/Rules/Conditions/TotalProductQuantityCondition.cs:91 | The metric is additive over concatenation of cart sequences |
| `CartMetrics.MetricIgnoresNullCart` | src/Sitecore.Support.251521/Commerce/Rules/Conditions/TotalProductQuantityCondition.cs:91 | A null cart anywhere in the sequence adds nothing |
| `CartMetrics.CartIgnoresLineWithoutProduct` | src/Sitecore.Support.251521/Commerce/Rules/Conditions/TotalProductQuantityCondition.cs:91 | A null line, or a line whose product is null, anywhere in a cart adds nothing to its total |
| `CartMetrics.MetricPermutation` | src/Sitecore.Support.251521/Commerce/Rules/Conditions/TotalProductQuantityCondition.cs:91 | Reordering the carts does not change the metric |
| `CartMetrics.CartLinePermutation` | src/Sitecore.Support.251521/Commerce/Rules/Conditions/TotalProductQuantityCondition.cs:91 | Reordering a cart's lines does not change its total |
| `CartMetrics.MetricLinePermutation` | src/Sitecore.Support.251521/Commerce/Rules/Conditions/TotalProductQuantityCondition.cs:91 | Reordering the lines of one cart in the sequence does not change the metric |
| `ConditionOperators.CompareTo` | src/Sitecore.Support.251521/Commerce/Rules/Conditions/TotalProductQuantityCondition.cs:59-78 | The `CompareTo` result is negative, zero or positive exactly when the metric is below, at or above the threshold |
| `ConditionOperators.EvaluateFailsOnlyOnUnsupported` | src/Sitecore.Support.251521/Commerce/Rules/Conditions/TotalProductQuantityCondition.cs:79-80 | The six listed operators always give a boolean; any other operator gives the "Operator is not supported." error, never a default |
| `ConditionOperators.ComplementaryOperators` | src/Sitecore.Support.251521/Commerce/Rules/Conditions/TotalProductQuantityCondition.cs:59-78 | NotEqual is the negation of Equal, GreaterThan of LessThanOrEqual, GreaterThanOrEqual of LessThan |
| `ConditionOperators.AtThreshold` | src/Sitecore.Support.251521/Commerce/Rules/Conditions/TotalProductQuantityCondition.cs:59-78 | When the metric equals the threshold, exactly Equal, GreaterThanOrEqual and LessThanOrEqual hold |
| `ConditionOperators.Trichotomy` | src/Sitecore.Support.251521/Commerce/Rules/Conditions/TotalProductQuantityCondition.cs:64-72 | Exactly one of LessThan, Equal and GreaterThan holds |
| `QuantityCondition.ContainsIff` | src/Sitecore.Support.251521/Commerce/Rules/Conditions/TotalProductQuantityCondition.cs:42 | `userId.Contains(value)` holds exactly when `value` occurs as a contiguous substring of the id |
| `QuantityCondition.ResolveUserIdSpec` | src/Sitecore.Support.251521/Commerce/Rules/Conditions/TotalProductQuantityCondition.cs:42-49 | An id containing "CommerceUsers" becomes the ExternalId the customer service returns for it; any other id is kept unchanged, whatever the customer service would return |
| `QuantityCondition.TotalProductQuantityCondition.constructor` | src/Sitecore.Support.251521/Commerce/Rules/Conditions/TotalProductQuantityCondition.cs:24-29 | The three handles the class builds are set once (lines 26-28), the two handles inherited from the base class are recorded separately, and the threshold starts at decimal's default 0 |
| `QuantityCondition.TotalProductQuantityCondition.Execute` | src/Sitecore.Support.251521/Commerce/Rules/Conditions/TotalProductQuantityCondition.cs:32-86 | The result is the configured operator applied to the metric of the loaded carts and exactly `TotalProductQuantity`, or the unsupported-operator error. The calls are made in this order: first the user id is read; then the lookup, with the raw id, made exactly when the id contains the marker; then one cart listing for the resolved id; then, only for a supported operator, one LoadCart per listed cart, each for the same shop and the same resolved id |
| `QuantityCondition.WorkedExample` | src/Sitecore.Support.251521/Commerce/Rules/Conditions/TotalProductQuantityCondition.cs:59-91 | A cart with 2 of product A and 3 of product B gives 5; against 5, Equal and LessThanOrEqual hold and GreaterThan does not |

## Left out

- `Context.Site` and `Assert.IsNotNull` (lines 34-36) depend on ambient platform state. `Execute` takes the site context as a parameter that is never null.
- `Factory.CreateObject` and `new CustomerServiceProvider()` (lines 26-28) are not modelled. The constructor receives the three services as parameters.
- The base class `BaseCartMetricsCondition<T>` is not part of this model. Its `ContactFactory` and `CartServiceProvider` handles, which `Execute` uses at lines 38 and 54, are given to the constructor. The model does not say how they relate to the objects built at lines 27-28.
- The host services `ContactFactory.GetUserId`, `CustomerServiceProvider.GetUser`, `CartServiceProvider.GetCarts` and `LoadCart` are not part of this model. Their behaviour is unknown, so each appears as a function value. Their own failures are not modelled, and neither are these nulls: a null result from `GetUser`, or a null `CommerceUser` in it; a null result from `GetCarts`, or a null `Carts` list in it; a null entry in `GetCarts(...).Carts`, where `cartBase.ExternalId` at line 54 would throw; and a null result from `LoadCart`, where `.Cart` at line 54 would throw. A null `Cart` inside a `LoadCart` result is modelled: it is a null cart.
- The operator comes from the base class `GetOperator()`, which is not part of this model. It is a field of the class, given to the constructor.
- `Log.Debug` (line 83) is a diagnostic side effect. It re-enumerates the lazy `Select` through `Count()`, loading every cart a second time; neither the log entry nor those second loads are modelled.
- The generic `RuleContext` parameter, the `BaseCartMetricsCondition<T>` inheritance and the boxing through `IComparable`/`object` are left out. The metric and the threshold are compared as numbers.
- `decimal` overflow (an `OverflowException` beyond about 7.9e28) is not modelled: quantities are unbounded reals.
- `decimal` rounding is not modelled. A sum needing more than 28-29 significant digits is rounded silently (`10M + 0.0000000000000000000000000001M == 10M`). So the real fold of line 91 can differ from the decimal one. For example, with quantities 1e-28, 10 and -10, the decimal result depends on the order of the lines. Every CartMetrics lemma except `CartMetrics.MetricOfNullCarts`, `CartMetrics.MetricIgnoresNullCart` and `CartMetrics.CartIgnoresLineWithoutProduct` holds for exact sums only. This covers the additivity of `CartMetrics.MetricConcat`: with one cart of 10 followed by six carts of 1e-28, the decimal fold stays at 10. It also covers every lemma that equates the fold with a sum in another order or grouping (`CartMetrics.MetricIsFlatSum`, `CartMetrics.MetricIsContributionSum`, `CartMetrics.FlatSumIsContributionSum`, `CartMetrics.CartQuantityIsContributionSum`, `CartMetrics.CartQuantityIsLineSum`) and the reordering lemmas.
- A null `ProductId` is not modelled: product ids are always strings. LINQ `GroupBy` accepts a null key and puts all such lines in one group; the metric is the same either way.
- A null `cart.Lines` (a NullReferenceException) is not modelled: a cart's lines are always a sequence.
- A null user id reaching `userId.Contains` is not modelled: ids are always strings.
