/**
 * The inventory helpers behind the product pages: the search filter, the
 * summary statistics and the three-way stock classification.
 */
module Inventory {
  import opened Text
  import opened JsArray

  /**
   * The fields of a product the helpers read. The price is a whole number
   * of minor currency units; the status is the stored status string.
   */
  datatype Product = Product(name: string, sku: string, category: string, price: int, stock: int, status: string)

  /** Stock below this count is low. */
  const LowStockThreshold := 10

  /** The lowercased term occurs in the lowercased name, SKU or category. */
  predicate Matches(p: Product, term: string) {
    Includes(Lower(p.name), term) || Includes(Lower(p.sku), term) || Includes(Lower(p.category), term)
  }

  /** Case-insensitive search over name, SKU and category; an empty term keeps everything. */
  function FilterProducts(products: seq<Product>, searchTerm: string): (r: seq<Product>)
    ensures |r| <= |products|
    ensures forall j :: 0 <= j < |r| ==> searchTerm == "" || Matches(r[j], Lower(searchTerm))
  {
    if searchTerm == "" then products
    else
      var term := Lower(searchTerm);
      Filter(products, (p: Product) => Matches(p, term))
  }

  /** An empty search term returns the list unchanged. */
  lemma EmptyTermKeepsAll(products: seq<Product>)
    ensures FilterProducts(products, "") == products
  {
  }

  /** The result keeps the order of the input and only drops products. */
  lemma FilterProductsIsSubsequence(products: seq<Product>, searchTerm: string)
    ensures IsSubsequence(FilterProducts(products, searchTerm), products)
  {
    if searchTerm == "" {
      SubsequenceOfItself(products);
    } else {
      FilterIsSubsequence(products, (p: Product) => Matches(p, Lower(searchTerm)));
    }
  }

  /** A product is kept exactly when it is in the input and, for a non-empty term, matches it. */
  lemma FilterProductsKeepsExactly(products: seq<Product>, searchTerm: string, p: Product)
    ensures p in FilterProducts(products, searchTerm)
            <==> p in products && (searchTerm == "" || Matches(p, Lower(searchTerm)))
  {
    if searchTerm != "" {
      FilterMembership(products, (q: Product) => Matches(q, Lower(searchTerm)), p);
    }
  }

  /** One product is kept, once, exactly when the term is empty or it matches. */
  lemma FilterProductsOne(p: Product, searchTerm: string)
    ensures FilterProducts([p], searchTerm)
            == if searchTerm == "" || Matches(p, Lower(searchTerm)) then [p] else []
  {
    if searchTerm != "" {
      assert [p][1..] == [];
    }
  }

  /** Searching distributes over concatenation, so every copy of a product is judged on its own. */
  lemma FilterProductsAppend(a: seq<Product>, b: seq<Product>, searchTerm: string)
    ensures FilterProducts(a + b, searchTerm) == FilterProducts(a, searchTerm) + FilterProducts(b, searchTerm)
  {
    if searchTerm != "" {
      FilterAppend(a, b, (p: Product) => Matches(p, Lower(searchTerm)));
    }
  }

  /** A term that every product matches keeps the whole list, duplicates included. */
  lemma AllMatchKeepsAll(products: seq<Product>, searchTerm: string)
    requires forall j :: 0 <= j < |products| ==> Matches(products[j], Lower(searchTerm))
    ensures FilterProducts(products, searchTerm) == products
  {
    if searchTerm != "" {
      FilterKeepsAll(products, (p: Product) => Matches(p, Lower(searchTerm)));
    }
  }

  /** Searching is insensitive to the case of the term. */
  lemma FilterProductsIgnoresTermCase(products: seq<Product>, searchTerm: string)
    ensures FilterProducts(products, Lower(searchTerm)) == FilterProducts(products, searchTerm)
  {
    LowerIsLower(Lower(searchTerm));
    if searchTerm != "" {
      FilterSamePredicate(products,
        (p: Product) => Matches(p, Lower(Lower(searchTerm))),
        (p: Product) => Matches(p, Lower(searchTerm)));
    }
  }

  /** What the statistics panel shows. */
  datatype InventoryStats = InventoryStats(totalProducts: nat, totalValue: int, lowStockProducts: nat, activeProducts: nat)

  /** The value `reduce` adds for one product. */
  function StockValue(p: Product): int {
    p.price * p.stock
  }

  /** `reduce` from the left, starting from the running sum `acc`. */
  function ReduceValue(acc: int, products: seq<Product>): int
    decreases |products|
  {
    if products == [] then acc else ReduceValue(acc + StockValue(products[0]), products[1..])
  }

  /** The total stock value, summed from the right. */
  function TotalValue(products: seq<Product>): int {
    if products == [] then 0 else StockValue(products[0]) + TotalValue(products[1..])
  }

  predicate IsLowStock(p: Product) {
    p.stock < LowStockThreshold
  }

  predicate IsActive(p: Product) {
    p.status == "active"
  }

  function CalculateInventoryStats(products: seq<Product>): (s: InventoryStats)
    ensures s.totalProducts == |products|
    ensures s.lowStockProducts <= s.totalProducts
    ensures s.activeProducts <= s.totalProducts
  {
    InventoryStats(|products|, ReduceValue(0, products),
      |Filter(products, IsLowStock)|, |Filter(products, IsActive)|)
  }

  /** Folding from any starting sum adds that sum to the total. */
  lemma {:induction false} ReduceValueIsSum(acc: int, products: seq<Product>)
    ensures ReduceValue(acc, products) == acc + TotalValue(products)
    decreases |products|
  {
    if products != [] {
      ReduceValueIsSum(acc + StockValue(products[0]), products[1..]);
    }
  }

  lemma {:induction false} TotalValueAppend(a: seq<Product>, b: seq<Product>)
    ensures TotalValue(a + b) == TotalValue(a) + TotalValue(b)
  {
    if a != [] {
      assert (a + b)[1..] == a[1..] + b;
      TotalValueAppend(a[1..], b);
    } else {
      assert a + b == b;
    }
  }

  /** The reported total value is the sum of price times stock over all products. */
  lemma StatsValueIsSum(products: seq<Product>)
    ensures CalculateInventoryStats(products).totalValue == TotalValue(products)
  {
    ReduceValueIsSum(0, products);
  }

  /**
   * The statistics of two lists joined are the statistics of each added
   * together: every figure is a sum over the products.
   */
  lemma StatsAdditive(a: seq<Product>, b: seq<Product>)
    ensures var s := CalculateInventoryStats(a + b);
            var sa := CalculateInventoryStats(a);
            var sb := CalculateInventoryStats(b);
            s.totalProducts == sa.totalProducts + sb.totalProducts
            && s.totalValue == sa.totalValue + sb.totalValue
            && s.lowStockProducts == sa.lowStockProducts + sb.lowStockProducts
            && s.activeProducts == sa.activeProducts + sb.activeProducts
  {
    StatsValueIsSum(a + b);
    StatsValueIsSum(a);
    StatsValueIsSum(b);
    TotalValueAppend(a, b);
    FilterAppend(a, b, IsLowStock);
    FilterAppend(a, b, IsActive);
  }

  /** The statistics of an empty list are all zero. */
  lemma StatsOfNone()
    ensures CalculateInventoryStats([]) == InventoryStats(0, 0, 0, 0)
  {
  }

  /**
   * The statistics of a single product: it counts once, adds price times
   * stock, counts as low stock when its stock is under 10 and as active
   * when its status is "active". With `StatsAdditive` this fixes every
   * figure for every list.
   */
  lemma StatsOfOne(p: Product)
    ensures CalculateInventoryStats([p])
            == InventoryStats(1, p.price * p.stock,
                              if p.stock < 10 then 1 else 0,
                              if p.status == "active" then 1 else 0)
  {
    assert [p][1..] == [];
    assert ReduceValue(0, [p]) == ReduceValue(StockValue(p), []);
    assert Filter([p], IsLowStock) == (if IsLowStock(p) then [p] else []);
    assert Filter([p], IsActive) == (if IsActive(p) then [p] else []);
  }

  /** With no negative prices or stock counts, the total value is not negative. */
  lemma {:induction false} TotalValueNonNegative(products: seq<Product>)
    requires forall j :: 0 <= j < |products| ==> products[j].price >= 0 && products[j].stock >= 0
    ensures TotalValue(products) >= 0
  {
    if products != [] {
      TotalValueNonNegative(products[1..]);
    }
  }

  datatype StockStatus = OutOfStock | LowStock | InStock

  /** Exactly zero is out of stock; anything else under the threshold, negatives included, is low. */
  function GetStockStatus(quantity: int): (s: StockStatus)
    ensures s == OutOfStock <==> quantity == 0
    ensures s == LowStock <==> quantity != 0 && quantity < LowStockThreshold
    ensures s == InStock <==> quantity >= LowStockThreshold
  {
    if quantity == 0 then OutOfStock
    else if quantity < LowStockThreshold then LowStock
    else InStock
  }

  function Rank(s: StockStatus): nat {
    match s
    case OutOfStock => 0
    case LowStock => 1
    case InStock => 2
  }

  /** For counts that are not negative, more stock never gives a worse status. */
  lemma StockStatusMonotone(a: int, b: int)
    requires 0 <= a <= b
    ensures Rank(GetStockStatus(a)) <= Rank(GetStockStatus(b))
  {
  }

  /** A product counts as low stock exactly when its stock status is not in-stock. */
  lemma LowStockIffNotInStock(p: Product)
    ensures IsLowStock(p) <==> GetStockStatus(p.stock) != InStock
  {
  }

  /** The low-stock figure counts the products whose status is out-of-stock or low-stock. */
  lemma LowStockCountMatchesStatus(products: seq<Product>)
    ensures CalculateInventoryStats(products).lowStockProducts
            == |Filter(products, (p: Product) => GetStockStatus(p.stock) != InStock)|
  {
    FilterSamePredicate(products, IsLowStock, (p: Product) => GetStockStatus(p.stock) != InStock);
  }
}
