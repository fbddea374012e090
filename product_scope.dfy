/** The products and dates churn analytics works over for one seller
    (`CreatorAnalytics::Churn::ProductScope`). Each accessor memoises its answer in an instance
    field with Ruby's `||=`, which evaluates again whenever the field holds `nil`.

    The seller's data is an input; converting a time to a calendar date in the seller's time zone
    is the parameter `localDate`. The ghost counters record how often the seller is queried. */
module ChurnProductScope {
  import opened Wrappers

  datatype Product = Product(
    id: int, externalId: string, uniquePermalink: string, name: string,
    isRecurringBilling: bool, isTieredMembership: bool)

  /** The value `product_map` stores for a product. */
  datatype ProductInfo = ProductInfo(id: int, externalId: string, permalink: string, name: string)

  /** What the scope reads from the seller: `products_for_creator_analytics`, the time of the first
      sale counted for analytics (if any), the account's creation time and its time zone. */
  datatype Seller = Seller(products: seq<Product>, firstSaleAt: Option<int>, createdAt: int, timezone: string)

  predicate IsSubscription(p: Product) {
    p.isRecurringBilling || p.isTieredMembership
  }

  /** The subscription products, in the order given. */
  function SubscriptionProductsOf(ps: seq<Product>): (r: seq<Product>)
    ensures forall p :: p in r <==> p in ps && IsSubscription(p)
    ensures |r| <= |ps|
    decreases |ps|
  {
    if |ps| == 0 then []
    else
      var rest := SubscriptionProductsOf(ps[..|ps| - 1]);
      var p := ps[|ps| - 1];
      assert forall x :: x in ps <==> x in ps[..|ps| - 1] || x == p;
      if IsSubscription(p) then rest + [p] else rest
  }

  /** The filter keeps the given order: it distributes over concatenation. */
  lemma {:induction false} SubscriptionProductsOfAppend(a: seq<Product>, b: seq<Product>)
    ensures SubscriptionProductsOf(a + b) == SubscriptionProductsOf(a) + SubscriptionProductsOf(b)
    decreases |b|
  {
    if |b| > 0 {
      assert (a + b)[..|a + b| - 1] == a + b[..|b| - 1];
      SubscriptionProductsOfAppend(a, b[..|b| - 1]);
    } else {
      assert a + b == a;
    }
  }

  function Info(p: Product): ProductInfo {
    ProductInfo(p.id, p.externalId, p.uniquePermalink, p.name)
  }

  /** `to_h`: each product's id maps to its info; for a repeated id the later product wins. */
  function ProductMapOf(ps: seq<Product>): (r: map<int, ProductInfo>)
    ensures forall i :: 0 <= i < |ps| && LastWithId(ps, i) ==> ps[i].id in r && r[ps[i].id] == Info(ps[i])
    decreases |ps|
  {
    if |ps| == 0 then map[]
    else
      var n := |ps| - 1;
      var prefix := ps[..n];
      var rest := ProductMapOf(prefix);
      var r := rest[ps[n].id := Info(ps[n])];
      assert forall i :: 0 <= i < n ==> prefix[i] == ps[i];
      forall i | 0 <= i < n && LastWithId(ps, i) ensures ps[i].id in r && r[ps[i].id] == Info(ps[i]) {
        assert ps[n].id != ps[i].id;
        assert LastWithId(prefix, i);
      }
      r
  }

  /** The map's keys are exactly the products' ids. */
  lemma {:induction false} ProductMapOfKeys(ps: seq<Product>)
    ensures ProductMapOf(ps).Keys == IdsOf(ps)
    decreases |ps|
  {
    if |ps| > 0 {
      var n := |ps| - 1;
      var prefix := ps[..n];
      ProductMapOfKeys(prefix);
      assert ProductMapOf(ps).Keys == ProductMapOf(prefix).Keys + {ps[n].id};
      IdsOfSnoc(ps);
    }
  }

  lemma IdsOfSnoc(ps: seq<Product>)
    requires |ps| > 0
    ensures IdsOf(ps) == IdsOf(ps[..|ps| - 1]) + {ps[|ps| - 1].id}
  {
    var n := |ps| - 1;
    var prefix := ps[..n];
    forall k | k in IdsOf(ps) ensures k in IdsOf(prefix) + {ps[n].id} {
      var i :| 0 <= i < |ps| && ps[i].id == k;
      if i < n { assert prefix[i].id == k; }
    }
    forall k | k in IdsOf(prefix) ensures k in IdsOf(ps) {
      var i :| 0 <= i < n && prefix[i].id == k;
      assert ps[i].id == k;
    }
  }

  /** The ids of the products. */
  function IdsOf(ps: seq<Product>): (ids: set<int>)
    ensures forall i :: 0 <= i < |ps| ==> ps[i].id in ids
    ensures forall k :: k in ids ==> exists i :: 0 <= i < |ps| && ps[i].id == k
  {
    set i | 0 <= i < |ps| :: ps[i].id
  }

  /** No product after position `i` has the id of the product at `i`. */
  predicate LastWithId(ps: seq<Product>, i: int)
    requires 0 <= i < |ps|
  {
    forall j :: i < j < |ps| ==> ps[j].id != ps[i].id
  }

  /** When ids are distinct, every product is found under its own id. */
  lemma ProductMapOfDistinct(ps: seq<Product>)
    requires forall i, j :: 0 <= i < j < |ps| ==> ps[i].id != ps[j].id
    ensures forall p :: p in ps ==> p.id in ProductMapOf(ps) && ProductMapOf(ps)[p.id] == Info(p)
  {
    var m := ProductMapOf(ps);
    forall p | p in ps ensures p.id in m && m[p.id] == Info(p) {
      var i :| 0 <= i < |ps| && m[p.id] == Info(ps[i]) && LastWithId(ps, i);
      var j :| 0 <= j < |ps| && ps[j] == p;
      assert ps[i].id == p.id;
      assert i == j;
    }
  }

  /** The date of the first sale in the seller's zone, if there was a sale. */
  function FirstSaleDateOf(seller: Seller, localDate: (int, string) -> int): (r: Option<int>)
    ensures r.None? <==> seller.firstSaleAt.None?
    ensures r.Some? ==> r.value == localDate(seller.firstSaleAt.value, seller.timezone)
  {
    match seller.firstSaleAt
    case None => None
    case Some(t) => Some(localDate(t, seller.timezone))
  }

  /** The first sale's date, or else the date the seller signed up, in the seller's zone. */
  function EarliestAnalyticsDateOf(seller: Seller, localDate: (int, string) -> int): (r: int)
    ensures r == localDate(if seller.firstSaleAt.Some? then seller.firstSaleAt.value else seller.createdAt, seller.timezone)
  {
    FirstSaleDateOf(seller, localDate).GetOr(localDate(seller.createdAt, seller.timezone))
  }

  class ProductScope {
    const seller: Seller
    const localDate: (int, string) -> int
    var subscriptionProducts: Option<seq<Product>>
    var productMap: Option<map<int, ProductInfo>>
    var earliestAnalyticsDate: Option<int>
    var firstSaleDate: Option<int>
    /** Calls of `products_for_creator_analytics`. */
    ghost var productQueries: nat
    /** Calls of `first_sale_created_at_for_analytics`. */
    ghost var firstSaleQueries: nat

    /** Each cache is empty or holds its specified value; the product list was fetched exactly
        when it is cached, and a first sale that exists was fetched exactly when it is cached. */
    ghost predicate Valid()
      reads this
    {
      && (subscriptionProducts.Some? ==> subscriptionProducts.value == SubscriptionProductsOf(seller.products))
      && (productMap.Some? ==> productMap.value == ProductMapOf(SubscriptionProductsOf(seller.products)))
      && (firstSaleDate.Some? ==> firstSaleDate == FirstSaleDateOf(seller, localDate))
      && (earliestAnalyticsDate.Some? ==> earliestAnalyticsDate.value == EarliestAnalyticsDateOf(seller, localDate))
      && productQueries == (if subscriptionProducts.Some? then 1 else 0)
      && (seller.firstSaleAt.Some? ==> firstSaleQueries == if firstSaleDate.Some? then 1 else 0)
    }

    constructor (seller: Seller, localDate: (int, string) -> int)
      ensures Valid()
      ensures this.seller == seller && this.localDate == localDate
      ensures subscriptionProducts.None? && productMap.None? && earliestAnalyticsDate.None? && firstSaleDate.None?
      ensures productQueries == 0 && firstSaleQueries == 0
    {
      this.seller := seller;
      this.localDate := localDate;
      subscriptionProducts := None;
      productMap := None;
      earliestAnalyticsDate := None;
      firstSaleDate := None;
      productQueries := 0;
      firstSaleQueries := 0;
    }

    /** `subscription_products`: fetched and filtered on the first call only. */
    method SubscriptionProducts() returns (r: seq<Product>)
      requires Valid()
      modifies this
      ensures Valid()
      ensures r == SubscriptionProductsOf(seller.products)
      ensures subscriptionProducts == Some(r) && productQueries == 1
      ensures productMap == old(productMap) && earliestAnalyticsDate == old(earliestAnalyticsDate)
      ensures firstSaleDate == old(firstSaleDate) && firstSaleQueries == old(firstSaleQueries)
    {
      if subscriptionProducts.None? {
        var fetched := seller.products;
        productQueries := productQueries + 1;
        subscriptionProducts := Some(SubscriptionProductsOf(fetched));
      }
      r := subscriptionProducts.value;
    }

    /** `product_map`: built from `subscription_products` on the first call only. */
    method ProductMap() returns (r: map<int, ProductInfo>)
      requires Valid()
      modifies this
      ensures Valid()
      ensures r == ProductMapOf(SubscriptionProductsOf(seller.products))
      ensures productMap == Some(r) && productQueries <= 1
      ensures old(productMap).Some? ==> subscriptionProducts == old(subscriptionProducts)
      ensures earliestAnalyticsDate == old(earliestAnalyticsDate)
      ensures firstSaleDate == old(firstSaleDate) && firstSaleQueries == old(firstSaleQueries)
    {
      if productMap.None? {
        var products := SubscriptionProducts();
        productMap := Some(ProductMapOf(products));
      }
      r := productMap.value;
    }

    /** `first_sale_date`: the seller is asked again on every call while the answer is `nil`. */
    method FirstSaleDate() returns (r: Option<int>)
      requires Valid()
      modifies this
      ensures Valid()
      ensures r == FirstSaleDateOf(seller, localDate)
      ensures firstSaleDate == r
      ensures firstSaleQueries == old(firstSaleQueries) + if old(firstSaleDate).None? then 1 else 0
      ensures subscriptionProducts == old(subscriptionProducts) && productMap == old(productMap)
      ensures earliestAnalyticsDate == old(earliestAnalyticsDate) && productQueries == old(productQueries)
    {
      if firstSaleDate.None? {
        var firstSale := seller.firstSaleAt;
        firstSaleQueries := firstSaleQueries + 1;
        firstSaleDate := match firstSale { case None => None case Some(t) => Some(localDate(t, seller.timezone)) };
      }
      r := firstSaleDate;
    }

    /** `earliest_analytics_date`: `first_sale_date`, or else the sign-up date; a date is never
        `nil`, so it is computed on the first call only. */
    method EarliestAnalyticsDate() returns (r: int)
      requires Valid()
      modifies this
      ensures Valid()
      ensures r == EarliestAnalyticsDateOf(seller, localDate)
      ensures earliestAnalyticsDate == Some(r)
      ensures old(earliestAnalyticsDate).Some? ==> firstSaleQueries == old(firstSaleQueries) && firstSaleDate == old(firstSaleDate)
      ensures old(earliestAnalyticsDate).None? ==> firstSaleDate == FirstSaleDateOf(seller, localDate)
      ensures subscriptionProducts == old(subscriptionProducts) && productMap == old(productMap)
      ensures productQueries == old(productQueries)
    {
      if earliestAnalyticsDate.None? {
        var first := FirstSaleDate();
        var date := if first.Some? then first.value else localDate(seller.createdAt, seller.timezone);
        earliestAnalyticsDate := Some(date);
      }
      r := earliestAnalyticsDate.value;
    }
  }

  /** A fresh scope asked twice gives the same answers, fetching the products once and, when
      there was a sale, the first sale once. */
  method RepeatedCallsAgree(seller: Seller, localDate: (int, string) -> int) returns (same: bool)
    ensures same
  {
    var scope := new ProductScope(seller, localDate);
    var m1 := scope.ProductMap();
    var s1 := scope.SubscriptionProducts();
    var m2 := scope.ProductMap();
    var s2 := scope.SubscriptionProducts();
    assert scope.productQueries == 1;
    var d1 := scope.EarliestAnalyticsDate();
    var d2 := scope.EarliestAnalyticsDate();
    assert seller.firstSaleAt.Some? ==> scope.firstSaleQueries == 1;
    same := m1 == m2 && s1 == s2 && d1 == d2;
  }
}
