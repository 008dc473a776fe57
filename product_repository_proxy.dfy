/** backend/.../ProductRepositoryProxy.java: a caching proxy in front of the
    product repository. Single products are cached by id with a timestamp; the
    full list is cached once. Entries older than ten minutes are refetched.
    The clock (`System.currentTimeMillis()`) is the parameter `now`. */
module ProductProxy {
  import opened Wrappers
  import opened Catalog

  /** `TimeUnit.MINUTES.toMillis(10)`. */
  const CacheExpiryMs: int := 10 * 60 * 1000

  /** `CachedProduct`: a product and the time it was cached. */
  datatype CachedProduct = CachedProduct(product: Product, timestamp: int)

  /** `CachedProduct.isExpired()`: strictly more than ten minutes have passed. */
  predicate IsExpired(entry: CachedProduct, now: int) {
    now - entry.timestamp > CacheExpiryMs
  }

  /** An entry is fresh for exactly ten minutes, the last millisecond included,
      and once expired it stays expired at every later time. */
  lemma ExpiryBoundary(entry: CachedProduct)
    ensures !IsExpired(entry, entry.timestamp + 600000)
    ensures IsExpired(entry, entry.timestamp + 600001)
    ensures forall now :: now <= entry.timestamp ==> !IsExpired(entry, now)
    ensures forall now, later :: IsExpired(entry, now) && now <= later ==> IsExpired(entry, later)
  {
  }

  /** The repository's `findById`: the first stored product with that id. */
  function Find(products: seq<Product>, id: string): (r: Option<Product>)
    ensures r.Some? ==> r.value in products && r.value.id == id
    ensures r.None? <==> forall p :: p in products ==> p.id != id
  {
    if products == [] then None
    else if products[0].id == id then Some(products[0])
    else Find(products[1..], id)
  }

  /** The repository's `save`: replaces the stored product with the same id, or
      appends the product when its id is new. */
  function Upsert(products: seq<Product>, product: Product): (r: seq<Product>)
    ensures product in r
    ensures |r| == |products| || |r| == |products| + 1
  {
    if products == [] then [product]
    else if products[0].id == product.id then [product] + products[1..]
    else [products[0]] + Upsert(products[1..], product)
  }

  /** The repository's `deleteById`: drops every product with that id. */
  function Remove(products: seq<Product>, id: string): (r: seq<Product>)
    ensures forall p :: p in r ==> p in products && p.id != id
    ensures |r| <= |products|
  {
    if products == [] then []
    else if products[0].id == id then Remove(products[1..], id)
    else [products[0]] + Remove(products[1..], id)
  }

  /** After a save, the saved product is found under its id and every other id
      finds what it found before. */
  lemma {:induction false} FindUpsert(products: seq<Product>, product: Product, id: string)
    ensures Find(Upsert(products, product), id) == if id == product.id then Some(product) else Find(products, id)
  {
    if products != [] && products[0].id != product.id {
      FindUpsert(products[1..], product, id);
      assert Upsert(products, product)[1..] == Upsert(products[1..], product);
    } else if products != [] {
      assert Upsert(products, product)[1..] == products[1..];
    }
  }

  /** After a delete, nothing is found under that id and every other id finds
      what it found before. */
  lemma {:induction false} FindRemove(products: seq<Product>, removed: string, id: string)
    ensures Find(Remove(products, removed), id) == if id == removed then None else Find(products, id)
  {
    if products != [] {
      FindRemove(products[1..], removed, id);
      if products[0].id != removed {
        assert Remove(products, removed)[1..] == Remove(products[1..], removed);
      }
    }
  }

  /** The product repository. */
  class ProductsRepo {
    var products: seq<Product>

    constructor(products: seq<Product>)
      ensures this.products == products
    {
      this.products := products;
    }
  }

  class ProductRepositoryProxy {
    const repo: ProductsRepo
    var cache: map<string, CachedProduct>
    var allProducts: Option<seq<Product>>
    var allProductsTimestamp: int

    constructor(repo: ProductsRepo)
      ensures this.repo == repo && cache == map[] && allProducts.None? && allProductsTimestamp == 0
      ensures Coherent()
    {
      this.repo := repo;
      cache := map[];
      allProducts := None;
      allProductsTimestamp := 0;
    }

    /** What the proxy remembers agrees with the repository: every cached
        product is what the repository holds under its key, and a cached list is
        the repository's list. It holds while every write goes through the proxy. */
    ghost predicate Coherent()
      reads this, repo
    {
      && (forall id :: id in cache ==> Find(repo.products, id) == Some(cache[id].product))
      && (allProducts.Some? ==> allProducts.value == repo.products)
    }

    /** `findAll()`: refetches the list exactly when none is cached or the cached
        one is more than ten minutes old, and then stamps it with `now`;
        otherwise returns the cached list, even when the repository has changed
        behind the proxy's back since. Under coherence the answer is always the
        repository's list. */
    method FindAll(now: int) returns (r: seq<Product>, ghost refetched: bool)
      modifies this
      ensures refetched <==> old(allProducts).None? || now - old(allProductsTimestamp) > CacheExpiryMs
      ensures refetched ==> r == repo.products && allProducts == Some(r) && allProductsTimestamp == now
      ensures !refetched ==> r == old(allProducts).value && allProducts == old(allProducts) && allProductsTimestamp == old(allProductsTimestamp)
      ensures cache == old(cache)
      ensures old(Coherent()) ==> Coherent() && r == repo.products
    {
      if allProducts.None? || now - allProductsTimestamp > CacheExpiryMs {
        allProducts := Some(repo.products);
        allProductsTimestamp := now;
        refetched := true;
      } else {
        refetched := false;
      }
      r := allProducts.value;
    }

    /** `findById(id)`: a cached entry that has not expired answers without the
        repository. Otherwise the repository is asked and a product it returns is
        cached with the time `now`; an absent answer leaves the cache as it was.
        A fresh entry is returned even when the repository has changed behind
        the proxy's back since; under coherence the answer is always the
        repository's. */
    method FindById(id: string, now: int) returns (r: Option<Product>, ghost queried: bool)
      modifies this
      ensures queried <==> id !in old(cache) || IsExpired(old(cache)[id], now)
      ensures !queried ==> r == Some(old(cache)[id].product) && cache == old(cache)
      ensures queried ==> r == Find(repo.products, id)
      ensures queried ==> cache == if r.Some? then old(cache)[id := CachedProduct(r.value, now)] else old(cache)
      ensures allProducts == old(allProducts) && allProductsTimestamp == old(allProductsTimestamp)
      ensures old(Coherent()) ==> Coherent() && r == Find(repo.products, id)
    {
      if id in cache && !IsExpired(cache[id], now) {
        return Some(cache[id].product), false;
      }
      queried := true;
      r := Find(repo.products, id);
      if r.Some? {
        cache := cache[id := CachedProduct(r.value, now)];
      }
    }

    /** `save(product)`: writes through to the repository, caches the saved
        product under its id with the time `now`, and drops the cached list. */
    method Save(product: Product, now: int) returns (saved: Product)
      modifies this, repo
      ensures old(Coherent()) ==> Coherent()
      ensures saved == product
      ensures repo.products == Upsert(old(repo.products), product)
      ensures cache == old(cache)[product.id := CachedProduct(product, now)]
      ensures allProducts.None? && allProductsTimestamp == old(allProductsTimestamp)
    {
      repo.products := Upsert(repo.products, product);
      saved := product;
      cache := cache[saved.id := CachedProduct(saved, now)];
      allProducts := None;
      if old(Coherent()) {
        forall k | k in cache ensures Find(repo.products, k) == Some(cache[k].product) {
          FindUpsert(old(repo.products), product, k);
        }
      }
    }

    /** `deleteById(id)`: deletes from the repository, forgets the cached entry
        and drops the cached list. */
    method DeleteById(id: string)
      modifies this, repo
      ensures old(Coherent()) ==> Coherent()
      ensures repo.products == Remove(old(repo.products), id)
      ensures cache == old(cache) - {id}
      ensures allProducts.None? && allProductsTimestamp == old(allProductsTimestamp)
    {
      repo.products := Remove(repo.products, id);
      cache := cache - {id};
      allProducts := None;
      if old(Coherent()) {
        forall k | k in cache ensures Find(repo.products, k) == Some(cache[k].product) {
          FindRemove(old(repo.products), id, k);
        }
      }
    }
  }

  /** A product read back after a save through the proxy is the saved product,
      and after a delete it is gone, whatever the clock says. */
  method SaveDeleteRoundTrip(proxy: ProductRepositoryProxy, product: Product, t1: int, t2: int, t3: int)
    returns (afterSave: Option<Product>, afterDelete: Option<Product>)
    requires proxy.Coherent()
    modifies proxy, proxy.repo
    ensures afterSave == Some(product)
    ensures afterDelete.None?
    ensures proxy.Coherent()
  {
    var saved := proxy.Save(product, t1);
    ghost var q;
    afterSave, q := proxy.FindById(product.id, t2);
    FindUpsert(old(proxy.repo.products), product, product.id);
    proxy.DeleteById(product.id);
    afterDelete, q := proxy.FindById(product.id, t3);
    FindRemove(old(proxy.repo.products), product.id, product.id);
    assert afterDelete == Find(Remove(Upsert(old(proxy.repo.products), product), product.id), product.id);
    FindRemove(Upsert(old(proxy.repo.products), product), product.id, product.id);
  }

  /** The list cache can be stale: a repository change that bypasses the proxy
      stays invisible to `findAll` until the cached list is ten minutes old. */
  method StaleListAfterBypass(proxy: ProductRepositoryProxy, other: seq<Product>, now: int)
    returns (r: seq<Product>)
    requires proxy.allProducts.Some? && now - proxy.allProductsTimestamp <= CacheExpiryMs
    requires other != proxy.allProducts.value
    modifies proxy, proxy.repo
    ensures r == old(proxy.allProducts).value && r != proxy.repo.products
  {
    proxy.repo.products := other;
    ghost var refetched;
    r, refetched := proxy.FindAll(now);
  }
}
