/**
 * The TotalProductQuantityCondition rule condition: it resolves the current shopper's
 * id, loads the shopper's carts in the current shop, and compares their total product
 * quantity with the configured TotalProductQuantity using the configured operator.
 *
 * The host platform's services are parameters whose behaviour is not known: the
 * contact factory (current user id), the customer service (user lookup) and the cart
 * service (cart listing and cart loading). Execute reports, besides its result, the
 * calls it makes to them, in order.
 */
module QuantityCondition {
  import opened Wrappers
  import opened Enumerable
  import opened CartMetrics
  import opened ConditionOperators

  /** The marker that identifies a user-store name (rather than a customer id). */
  const CommerceUsersMarker := "CommerceUsers"

  // ---------------------------------------------------------------------------
  // Substring test

  /** `value` occurs in `s` starting at index `i`. */
  predicate OccursAt(s: string, value: string, i: int)
  {
    0 <= i && i + |value| <= |s| && s[i..i + |value|] == value
  }

  /** `s.Contains(value)`, an ordinal substring test. */
  function Contains(s: string, value: string): bool
    decreases |s|
  {
    if |value| > |s| then false
    else if s[..|value|] == value then true
    else Contains(s[1..], value)
  }

  /** Contains holds exactly when `value` occurs somewhere in `s`. */
  lemma {:induction false} ContainsIff(s: string, value: string)
    ensures Contains(s, value) <==> exists i :: OccursAt(s, value, i)
    decreases |s|
  {
    if |value| > |s| {
    } else if s[..|value|] == value {
      assert OccursAt(s, value, 0);
    } else {
      ContainsIff(s[1..], value);
      forall i | 0 <= i ensures OccursAt(s[1..], value, i) <==> OccursAt(s, value, i + 1) {
        if i + |value| <= |s[1..]| {
          assert s[1..][i..i + |value|] == s[i + 1..i + 1 + |value|];
        }
      }
      if exists i :: OccursAt(s, value, i) {
        var i :| OccursAt(s, value, i);
        assert i != 0;
        assert OccursAt(s[1..], value, i - 1);
      }
    }
  }

  // ---------------------------------------------------------------------------
  // The host's services, as values the model does not look into

  datatype SiteContext = SiteContext(name: string)

  datatype CommerceUser = CommerceUser(externalId: string)

  /** A cart summary as listed by GetCarts; only its ExternalId is used. */
  datatype CartBase = CartBase(externalId: string)

  /** ContactFactory.GetUserId: the current visitor's user id. */
  datatype ContactFactory = ContactFactory(getUserId: () -> string)

  /** CustomerServiceProvider.GetUser: the commerce user stored under a user id. */
  datatype CustomerServiceProvider = CustomerServiceProvider(getUser: string -> CommerceUser)

  /**
   * CartServiceProvider.GetCarts(shop name, user ids) lists cart summaries;
   * LoadCart(shop name, cart id, user id) loads one cart, which may be null.
   */
  datatype CartServiceProvider = CartServiceProvider(
    getCarts: (string, seq<string>) -> seq<CartBase>,
    loadCart: (string, string, string) -> Option<Cart>)

  /** A call made to one of the services. */
  datatype ServiceCall =
    | GetUserIdCall
    | GetUserCall(userId: string)
    | GetCartsCall(shopName: string, userIds: seq<string>)
    | LoadCartCall(shopName: string, cartId: string, userId: string)

  /** The id the carts are looked up with: the customer's ExternalId for a user-store name. */
  function ResolveUserId(userId: string, customers: CustomerServiceProvider): string
  {
    if Contains(userId, CommerceUsersMarker) then customers.getUser(userId).externalId else userId
  }

  /**
   * An id in which the marker occurs is replaced by the ExternalId the customer service
   * returns for it; any other id is kept as it is, whatever the customer service would say.
   */
  lemma ResolveUserIdSpec(userId: string, customers: CustomerServiceProvider)
    ensures (exists i :: OccursAt(userId, CommerceUsersMarker, i)) ==>
              ResolveUserId(userId, customers) == customers.getUser(userId).externalId
    ensures (forall i :: !OccursAt(userId, CommerceUsersMarker, i)) ==>
              ResolveUserId(userId, customers) == userId
  {
    ContainsIff(userId, CommerceUsersMarker);
  }

  /** `summaries.Select(cartBase => LoadCart(new LoadCartRequest(shopName, cartBase.ExternalId, userId)).Cart)` */
  function LoadCarts(service: CartServiceProvider, shopName: string, summaries: seq<CartBase>, userId: string): seq<Option<Cart>>
  {
    Select(summaries, (b: CartBase) => service.loadCart(shopName, b.externalId, userId))
  }

  /** The LoadCart calls that enumerating LoadCarts makes. */
  function LoadCartCalls(shopName: string, summaries: seq<CartBase>, userId: string): seq<ServiceCall>
  {
    Select(summaries, (b: CartBase) => LoadCartCall(shopName, b.externalId, userId))
  }

  // ---------------------------------------------------------------------------
  // The condition

  class TotalProductQuantityCondition {
    /** This class's own handles, built by its constructor; only the customer service is used. */
    const customerServiceProvider: CustomerServiceProvider
    const cartServiceProvider: CartServiceProvider
    const contactFactory: ContactFactory

    /**
     * The handles inherited from the base condition class (`this.ContactFactory`,
     * `this.CartServiceProvider`), which Execute calls; they are not the fields above.
     */
    const baseContactFactory: ContactFactory
    const baseCartServiceProvider: CartServiceProvider

    /** The operator configured on the rule (held by the base class, read with GetOperator). */
    var conditionOperator: ConditionOperator

    /** The TotalProductQuantity property: the threshold. */
    var totalProductQuantity: real

    constructor(customers: CustomerServiceProvider, carts: CartServiceProvider, contacts: ContactFactory,
                inheritedContacts: ContactFactory, inheritedCarts: CartServiceProvider,
                op: ConditionOperator)
      ensures customerServiceProvider == customers
      ensures cartServiceProvider == carts
      ensures contactFactory == contacts
      ensures baseContactFactory == inheritedContacts
      ensures baseCartServiceProvider == inheritedCarts
      ensures conditionOperator == op && totalProductQuantity == 0.0
    {
      customerServiceProvider := customers;
      cartServiceProvider := carts;
      contactFactory := contacts;
      baseContactFactory := inheritedContacts;
      baseCartServiceProvider := inheritedCarts;
      conditionOperator := op;
      totalProductQuantity := 0.0;
    }

    /** GetPredefinedValue: the value the metric is compared with. */
    function GetPredefinedValue(): real
      reads this
    {
      totalProductQuantity
    }

    /** The id the contact factory reports for the current visitor. */
    function RawUserId(): string
    {
      baseContactFactory.getUserId()
    }

    /** The id after normalisation. */
    function ResolvedUserId(): string
    {
      ResolveUserId(RawUserId(), customerServiceProvider)
    }

    /** The cart summaries listed for the resolved id in the given shop. */
    function CartSummaries(shopName: string): seq<CartBase>
    {
      baseCartServiceProvider.getCarts(shopName, [ResolvedUserId()])
    }

    method Execute(shopContext: SiteContext) returns (result: Result<bool, string>, calls: seq<ServiceCall>)
      // the outcome: the operator applied to the metric of the loaded carts and TotalProductQuantity
      ensures result == Evaluate(conditionOperator,
                                 GetCartMetrics(LoadCarts(baseCartServiceProvider, shopContext.name,
                                                          CartSummaries(shopContext.name), ResolvedUserId())),
                                 totalProductQuantity)
      // identity first; the user lookup happens, with the raw id, exactly when it contains the marker
      ensures |calls| >= 2 && calls[0] == GetUserIdCall
      ensures Contains(RawUserId(), CommerceUsersMarker) <==> calls[1] == GetUserCall(RawUserId())
      ensures forall i :: 0 <= i < |calls| && calls[i].GetUserCall? ==>
                i == 1 && Contains(RawUserId(), CommerceUsersMarker)
      // then the cart listing, once, for the resolved id
      ensures var j := if Contains(RawUserId(), CommerceUsersMarker) then 2 else 1;
              && j < |calls|
              && calls[j] == GetCartsCall(shopContext.name, [ResolvedUserId()])
              && calls[j + 1..] == if conditionOperator == Unsupported then []
                                   else LoadCartCalls(shopContext.name, CartSummaries(shopContext.name), ResolvedUserId())
      // every cart load is for the same shop and the same resolved id
      ensures forall i :: 0 <= i < |calls| && calls[i].LoadCartCall? ==>
                calls[i].shopName == shopContext.name && calls[i].userId == ResolvedUserId()
    {
      var userId := baseContactFactory.getUserId();
      calls := [GetUserIdCall];
      if Contains(userId, CommerceUsersMarker) {
        var user := customerServiceProvider.getUser(userId);
        calls := calls + [GetUserCall(userId)];
        userId := user.externalId;
      }
      var summaries := baseCartServiceProvider.getCarts(shopContext.name, [userId]);
      calls := calls + [GetCartsCall(shopContext.name, [userId])];
      // The Select is lazy: the carts are loaded when GetCartMetrics enumerates them.
      var carts := LoadCarts(baseCartServiceProvider, shopContext.name, summaries, userId);
      var op := conditionOperator;
      var isConditionMet := false;
      match op {
        case Equal =>
          isConditionMet := CompareTo(GetCartMetrics(carts), GetPredefinedValue()) == 0;
        case GreaterThan =>
          isConditionMet := CompareTo(GetCartMetrics(carts), GetPredefinedValue()) > 0;
        case GreaterThanOrEqual =>
          isConditionMet := CompareTo(GetCartMetrics(carts), GetPredefinedValue()) >= 0;
        case LessThan =>
          isConditionMet := CompareTo(GetCartMetrics(carts), GetPredefinedValue()) < 0;
        case LessThanOrEqual =>
          isConditionMet := CompareTo(GetCartMetrics(carts), GetPredefinedValue()) <= 0;
        case NotEqual =>
          isConditionMet := CompareTo(GetCartMetrics(carts), GetPredefinedValue()) != 0;
        case Unsupported =>
          return Failure(OperatorNotSupported), calls;
      }
      // Each supported branch enumerated the carts once: one LoadCart per summary.
      calls := calls + LoadCartCalls(shopContext.name, summaries, userId);
      result := Success(isConditionMet);
    }
  }

  /**
   * One cart with 2 of product A and 3 of product B, against a threshold of 5:
   * Equal and LessThanOrEqual hold, GreaterThan does not.
   */
  lemma WorkedExample()
    ensures var carts := [Some(Cart("cart", [Some(CartLine(Some(Product("A")), 2.0)),
                                             Some(CartLine(Some(Product("B")), 3.0))]))];
            && GetCartMetrics(carts) == 5.0
            && Evaluate(Equal, GetCartMetrics(carts), 5.0) == Success(true)
            && Evaluate(GreaterThan, GetCartMetrics(carts), 5.0) == Success(false)
            && Evaluate(LessThanOrEqual, GetCartMetrics(carts), 5.0) == Success(true)
  {
    var lines := [Some(CartLine(Some(Product("A")), 2.0)), Some(CartLine(Some(Product("B")), 3.0))];
    var carts := [Some(Cart("cart", lines))];
    MetricIsContributionSum(carts);
    assert Sum(lines, LineContribution) == 5.0;
  }
}
