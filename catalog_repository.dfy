/**
 * ProductRepository of the Catalog service. The document collection is the
 * sequence `products`; WebUtility.UrlDecode and the case folding of the
 * server's case-insensitive regular expressions are functions given to the
 * constructor, which the model does not interpret.
 */
module CatalogRepository {
  import opened Wrappers
  import opened Strings
  import opened CatalogQuery

  /** The write error the driver throws. */
  datatype MongoWriteError = DuplicateKey(id: string)

  class ProductRepository {
    var products: seq<Product>
    const urlDecode: string -> string
    const caseFold: char -> char

    ghost predicate Valid()
      reads this
    {
      UniqueIds(products)
    }

    constructor (initial: seq<Product>, urlDecode: string -> string, caseFold: char -> char)
      requires UniqueIds(initial)
      ensures Valid() && products == initial
      ensures this.urlDecode == urlDecode && this.caseFold == caseFold
    {
      products := initial;
      this.urlDecode := urlDecode;
      this.caseFold := caseFold;
    }

    /** GetProduct: the document with that id, or null. */
    function GetProduct(id: string): (r: Option<Product>)
      reads this
      ensures r.None? <==> forall p :: p in products ==> p.id != id
      ensures r.Some? ==> r.value in products && r.value.id == id
    {
      var i := IndexOfId(products, id);
      if i < 0 then None else Some(products[i])
    }

    /**
     * What the product list's parameters mean: each non-empty one is a
     * constraint, all of them must hold.
     */
    predicate MatchesParams(p: Product, params: CatalogSpecParams) {
      && (IsNullOrEmpty(params.search) || MatchesIgnoreCase(p.name, urlDecode(params.search.value), caseFold))
      && (IsNullOrEmpty(params.brandId) || p.brands.id == params.brandId.value)
      && (IsNullOrEmpty(params.typeId) || p.types.id == params.typeId.value)
    }

    /** The filter GetProducts composes with `&=`, starting from the empty filter. */
    function ParamsFilter(params: CatalogSpecParams): (f: ProductFilter)
      ensures f.brandNameLike.None?
      ensures forall p :: Satisfies(p, f, caseFold) <==> MatchesParams(p, params)
    {
      var f := EmptyFilter;
      var f := if IsNullOrEmpty(params.search) then f else f.(nameLike := Some(urlDecode(params.search.value)));
      var f := if IsNullOrEmpty(params.brandId) then f else f.(brandId := params.brandId);
      var f := if IsNullOrEmpty(params.typeId) then f else f.(typeId := params.typeId);
      f
    }

    /** Every document the filter selects, in the order the Sort parameter names. */
    function SortedMatches(params: CatalogSpecParams, filter: ProductFilter): seq<Product>
      reads this
    {
      SortBy(SortOrderOf(params.sort), Find(products, filter, caseFold))
    }

    /**
     * DataFilter: the matching documents sorted as the Sort parameter says,
     * then the page `PageIndex` of size `PageSize`.
     */
    function DataFilter(params: CatalogSpecParams, filter: ProductFilter): (r: seq<Product>)
      reads this
      requires 1 <= params.pageIndex && 0 <= params.pageSize
      ensures Sorted(SortOrderOf(params.sort), r)
      ensures forall p :: p in r ==> p in products && Satisfies(p, filter, caseFold)
      ensures params.pageSize > 0 ==> |r| <= params.pageSize
      ensures params.pageSize == 0 ==> multiset(r) == multiset(Find(products, filter, caseFold))
      ensures r == Page(SortedMatches(params, filter), params.pageIndex, params.pageSize)
    {
      var order := SortOrderOf(params.sort);
      var matches := Find(products, filter, caseFold);
      SortBySortedPermutation(order, matches);
      var sorted := SortBy(order, matches);
      PageWithin(sorted, params.pageIndex, params.pageSize);
      PageSorted(order, sorted, params.pageIndex, params.pageSize);
      assert forall p :: p in sorted ==> p in matches by {
        forall p | p in sorted ensures p in matches {
          assert p in multiset(sorted);
        }
      }
      Page(sorted, params.pageIndex, params.pageSize)
    }

    /**
     * GetProducts: the page of matching documents, their total count and
     * the paging parameters as given.
     */
    function GetProducts(params: CatalogSpecParams): (r: Pagination<Product>)
      reads this
      requires 1 <= params.pageIndex && 0 <= params.pageSize
      ensures r.pageIndex == params.pageIndex && r.pageSize == params.pageSize
      ensures r.count == |Find(products, ParamsFilter(params), caseFold)|
      ensures forall p :: p in r.data ==> p in products && MatchesParams(p, params)
      ensures params.pageSize > 0 ==> |r.data| <= params.pageSize
      ensures Sorted(SortOrderOf(params.sort), r.data)
      ensures r.data == Page(SortedMatches(params, ParamsFilter(params)), params.pageIndex, params.pageSize)
      ensures params.pageSize == 0 ==> multiset(r.data) == multiset(Find(products, ParamsFilter(params), caseFold))
    {
      var filter := ParamsFilter(params);
      var totalItems := |Find(products, filter, caseFold)|;
      var data := DataFilter(params, filter);
      Pagination(params.pageIndex, params.pageSize, totalItems, data)
    }

    /** GetProductsByBrand: nothing for a null, empty or blank brand, else a brand-name search. */
    function GetProductsByBrand(brandName: Option<string>): (r: seq<Product>)
      reads this
      ensures IsNullOrWhiteSpace(brandName) ==> r == []
      ensures !IsNullOrWhiteSpace(brandName) ==> forall p :: p in r <==>
        p in products && MatchesIgnoreCase(p.brands.name, urlDecode(brandName.value), caseFold)
      ensures multiset(r) <= multiset(products)
    {
      if IsNullOrWhiteSpace(brandName) then []
      else Find(products, EmptyFilter.(brandNameLike := Some(urlDecode(brandName.value))), caseFold)
    }

    /** GetProductsByName: nothing for a null or empty name (a blank one is searched), else a name search. */
    function GetProductsByName(name: Option<string>): (r: seq<Product>)
      reads this
      ensures IsNullOrEmpty(name) ==> r == []
      ensures !IsNullOrEmpty(name) ==> forall p :: p in r <==>
        p in products && MatchesIgnoreCase(p.name, urlDecode(name.value), caseFold)
      ensures multiset(r) <= multiset(products)
    {
      if IsNullOrEmpty(name) then []
      else Find(products, EmptyFilter.(nameLike := Some(urlDecode(name.value))), caseFold)
    }

    /**
     * CreateProduct: inserts the document and returns it; an id already in
     * the collection is a duplicate-key error and nothing is inserted.
     */
    method CreateProduct(product: Product) returns (r: Result<Product, MongoWriteError>)
      requires Valid()
      modifies this
      ensures Valid()
      ensures r.Success? <==> forall p :: p in old(products) ==> p.id != product.id
      ensures r.Success? ==> r.value == product && products == old(products) + [product]
      ensures r.Failure? ==> r.error == DuplicateKey(product.id) && products == old(products)
    {
      if IndexOfId(products, product.id) >= 0 {
        return Failure(DuplicateKey(product.id));
      }
      products := products + [product];
      return Success(product);
    }

    /**
     * DeleteProduct: true exactly when a document had the id; that document,
     * and only it, is removed.
     */
    method DeleteProduct(id: string) returns (deleted: bool)
      requires Valid()
      modifies this
      ensures Valid()
      ensures deleted <==> exists p :: p in old(products) && p.id == id
      ensures products == WithoutId(old(products), id)
      ensures !deleted ==> products == old(products)
      ensures deleted ==> |products| == |old(products)| - 1
    {
      var i := IndexOfId(products, id);
      if i < 0 {
        WithoutAbsentId(products, id);
        return false;
      }
      RemoveAtIsWithoutId(products, i);
      products := products[..i] + products[i + 1..];
      return true;
    }

    /**
     * UpdateProduct: replaces the document with the product's id; true only
     * when that changed something (a match with an identical document is not
     * a modification).
     */
    method UpdateProduct(product: Product) returns (modified: bool)
      requires Valid()
      modifies this
      ensures Valid()
      ensures modified <==> exists p :: p in old(products) && p.id == product.id && p != product
      ensures |products| == |old(products)|
      ensures forall k :: 0 <= k < |products| ==>
        products[k] == if old(products)[k].id == product.id then product else old(products)[k]
    {
      var i := IndexOfId(products, product.id);
      if i < 0 {
        return false;
      }
      modified := products[i] != product;
      products := products[i := product];
    }
  }

  /** The count does not depend on the page asked for or on the sort key. */
  lemma CountIgnoresPaging(repo: ProductRepository, a: CatalogSpecParams, b: CatalogSpecParams)
    requires 1 <= a.pageIndex && 0 <= a.pageSize && 1 <= b.pageIndex && 0 <= b.pageSize
    requires a.search == b.search && a.brandId == b.brandId && a.typeId == b.typeId
    ensures repo.GetProducts(a).count == repo.GetProducts(b).count
  {
  }

  /** The data of pages 1 to k of the product list, as GetProducts returns them, one after the other. */
  function ReturnedPages(repo: ProductRepository, params: CatalogSpecParams, k: nat): seq<Product>
    reads repo
    requires 0 < params.pageSize
  {
    if k == 0 then []
    else ReturnedPages(repo, params, k - 1) + repo.GetProducts(params.(pageIndex := k)).data
  }

  /** The pages GetProducts returns are the consecutive pages of the sorted matches. */
  lemma {:induction false} ReturnedPagesArePages(repo: ProductRepository, params: CatalogSpecParams, k: nat)
    requires 0 < params.pageSize
    ensures ReturnedPages(repo, params, k)
      == Pages(repo.SortedMatches(params, repo.ParamsFilter(params)), params.pageSize, k)
  {
    if k > 0 {
      ReturnedPagesArePages(repo, params, k - 1);
      assert repo.ParamsFilter(params.(pageIndex := k)) == repo.ParamsFilter(params);
    }
  }

  /**
   * Fetching pages 1 to k of the product list, one after the other, yields
   * the first k * PageSize matching documents in sort order; once k pages
   * span the reported count they hold every match, each as often as the
   * collection does, and Count of them.
   */
  lemma AllPagesHoldEveryMatch(repo: ProductRepository, params: CatalogSpecParams, k: nat)
    requires 1 <= params.pageIndex && 0 < params.pageSize
    ensures |repo.SortedMatches(params, repo.ParamsFilter(params))| == repo.GetProducts(params).count
    ensures k * params.pageSize >= repo.GetProducts(params).count ==>
      ReturnedPages(repo, params, k) == repo.SortedMatches(params, repo.ParamsFilter(params)) &&
      multiset(ReturnedPages(repo, params, k)) == multiset(Find(repo.products, repo.ParamsFilter(params), repo.caseFold))
  {
    var matches := Find(repo.products, repo.ParamsFilter(params), repo.caseFold);
    var all := repo.SortedMatches(params, repo.ParamsFilter(params));
    SortBySortedPermutation(SortOrderOf(params.sort), matches);
    assert |all| == |multiset(all)| == |multiset(matches)| == |matches|;
    ReturnedPagesArePages(repo, params, k);
    PagesArePrefix(all, params.pageSize, k);
    if k * params.pageSize >= |all| {
      assert all[..|all|] == all;
    }
  }

  /**
   * Without ties among the matches, the page GetProducts returns is the page
   * of whatever sorted order of the matches the server picks.
   */
  lemma AnyServerOrderGivesSamePage(repo: ProductRepository, params: CatalogSpecParams, t: seq<Product>)
    requires 1 <= params.pageIndex && 0 <= params.pageSize
    requires NoTies(SortOrderOf(params.sort), Find(repo.products, repo.ParamsFilter(params), repo.caseFold))
    requires Sorted(SortOrderOf(params.sort), t)
    requires multiset(t) == multiset(Find(repo.products, repo.ParamsFilter(params), repo.caseFold))
    ensures Page(t, params.pageIndex, params.pageSize) == repo.GetProducts(params).data
  {
    var o := SortOrderOf(params.sort);
    var matches := Find(repo.products, repo.ParamsFilter(params), repo.caseFold);
    SortBySortedPermutation(o, matches);
    forall a | a in t ensures a in matches {
      assert a in multiset(t);
    }
    SortedUnique(o, t, repo.SortedMatches(params, repo.ParamsFilter(params)));
  }

  /** A blank name is still searched by name, while a blank brand returns nothing. */
  lemma BlankSearchRules(repo: ProductRepository, blank: string)
    requires blank != [] && forall i :: 0 <= i < |blank| ==> IsWhiteSpace(blank[i])
    ensures repo.GetProductsByBrand(Some(blank)) == []
    ensures forall p :: p in repo.GetProductsByName(Some(blank)) <==>
      p in repo.products && MatchesIgnoreCase(p.name, repo.urlDecode(blank), repo.caseFold)
  {
  }
}
