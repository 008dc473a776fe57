/** backend/.../flyweight/: shared, immutable product categories, one per
    category name regardless of letter case. */
module Categories {
  import opened Wrappers
  import opened Text

  /** ProductCategory.java: an immutable flyweight. */
  class ProductCategory {
    const name: string
    const description: string
    const iconUrl: string

    constructor(name: string, description: string, iconUrl: string)
      ensures this.name == name && this.description == description && this.iconUrl == iconUrl
    {
      this.name := name;
      this.description := description;
      this.iconUrl := iconUrl;
    }
  }

  /** ProductCategoryFactory.java. */
  class ProductCategoryFactory {
    var categories: map<string, ProductCategory>

    constructor()
      ensures categories == map[] && Valid()
    {
      categories := map[];
    }

    /** Every category is stored under its own name in lower case. */
    predicate Valid()
      reads this
    {
      forall k :: k in categories ==> ToLower(categories[k].name) == k
    }

    /** `getProductCategory(name, description, iconUrl)`: the category stored
        under the lower-cased name; when there is none, a new one with the given
        name, description and icon is stored first. The first write wins: a
        later call with other details gets the existing object. */
    method GetProductCategory(name: string, description: string, iconUrl: string) returns (c: ProductCategory)
      modifies this
      ensures old(Valid()) ==> Valid()
      ensures ToLower(name) in old(categories) ==> c == old(categories)[ToLower(name)] && categories == old(categories)
      ensures ToLower(name) !in old(categories) ==>
        fresh(c) && c.name == name && c.description == description && c.iconUrl == iconUrl &&
        categories == old(categories)[ToLower(name) := c]
      ensures categories[ToLower(name)] == c
    {
      var key := ToLower(name);
      if key !in categories {
        var created := new ProductCategory(name, description, iconUrl);
        categories := categories[key := created];
      }
      c := categories[key];
    }

    /** `getCategory(name)`: the category stored under the lower-cased name, or
        None; it never stores anything. In a valid factory the category found has
        the asked name up to letter case. */
    function GetCategory(name: string): (r: Option<ProductCategory>)
      reads this
      ensures r.None? <==> ToLower(name) !in categories
      ensures r.Some? ==> r.value == categories[ToLower(name)]
      ensures Valid() && r.Some? ==> ToLower(r.value.name) == ToLower(name)
    {
      if ToLower(name) in categories then Some(categories[ToLower(name)]) else None
    }

    /** `getAllCategories()`: the map of categories, handed out as a value, so a
        caller's change to it cannot reach the factory. */
    function GetAllCategories(): (r: map<string, ProductCategory>)
      reads this
      ensures r.Keys == categories.Keys
      ensures forall k :: k in r ==> r[k] == categories[k]
    {
      categories
    }
  }

  /** Two names that differ only in letter case share one category object, and
      the second request neither adds an entry nor changes the first one's
      details; a later lookup in any casing finds that same object. */
  method SameCategoryAnyCase(factory: ProductCategoryFactory, name1: string, name2: string,
                             description1: string, description2: string, icon1: string, icon2: string)
    returns (c1: ProductCategory, c2: ProductCategory)
    requires EqualIgnoringCase(name1, name2)
    modifies factory
    ensures c1 == c2
    ensures ToLower(name1) !in old(factory.categories) ==> c2.description == description1 && c2.iconUrl == icon1
    ensures |factory.categories| <= |old(factory.categories)| + 1
    ensures factory.categories.Keys == old(factory.categories).Keys + {ToLower(name1)}
    ensures factory.GetCategory(name2) == Some(c1)
  {
    ToLowerIsCaseInsensitiveKey(name1, name2);
    c1 := factory.GetProductCategory(name1, description1, icon1);
    c2 := factory.GetProductCategory(name2, description2, icon2);
  }
}
