/**
 * The query semantics of the Catalog service's product collection: filters,
 * sort orders and skip/limit paging, as functions over the sequence of
 * products that stands for the document collection.
 */
module CatalogQuery {
  import opened Wrappers
  import opened Strings

  datatype ProductBrand = ProductBrand(id: string, name: string)
  datatype ProductType = ProductType(id: string, name: string)

  /** A product document; the price is in minor currency units. */
  datatype Product = Product(id: string, name: string, brands: ProductBrand, types: ProductType, price: int)

  /** The query string of the product list: paging, two id filters, a sort key and a search text. */
  datatype CatalogSpecParams = CatalogSpecParams(
    pageIndex: int, pageSize: int,
    brandId: Option<string>, typeId: Option<string>,
    sort: Option<string>, search: Option<string>)

  /** Pagination<Product>: the echoed paging, the number of matches and one page of them. */
  datatype Pagination<T> = Pagination(pageIndex: int, pageSize: int, count: int, data: seq<T>)

  /**
   * A filter definition: a conjunction of optional constraints, each `None`
   * adding nothing. `nameLike`/`brandNameLike` are case-insensitive literal
   * regular expressions on Name and Brands.Name; `brandId`/`typeId` are
   * equalities on Brands.Id and Types.Id.
   */
  datatype ProductFilter = ProductFilter(
    nameLike: Option<string>, brandNameLike: Option<string>,
    brandId: Option<string>, typeId: Option<string>)

  /** Builders<Product>.Filter.Empty. */
  const EmptyFilter := ProductFilter(None, None, None, None)

  predicate Satisfies(p: Product, f: ProductFilter, fold: char -> char) {
    && (f.nameLike.Some? ==> MatchesIgnoreCase(p.name, f.nameLike.value, fold))
    && (f.brandNameLike.Some? ==> MatchesIgnoreCase(p.brands.name, f.brandNameLike.value, fold))
    && (f.brandId.Some? ==> p.brands.id == f.brandId.value)
    && (f.typeId.Some? ==> p.types.id == f.typeId.value)
  }

  /**
   * Find(filter): the documents that satisfy the filter, in collection order.
   * Every matching document is there as often as in the collection.
   */
  function Find(s: seq<Product>, f: ProductFilter, fold: char -> char): (r: seq<Product>)
    ensures |r| <= |s|
    ensures forall p :: multiset(r)[p] == if Satisfies(p, f, fold) then multiset(s)[p] else 0
    ensures forall p :: p in r <==> p in s && Satisfies(p, f, fold)
  {
    if s == [] then []
    else
      assert s == [s[0]] + s[1..];
      (if Satisfies(s[0], f, fold) then [s[0]] else []) + Find(s[1..], f, fold)
  }

  /** Ids are unique in the collection (the `_id` index). */
  predicate UniqueIds(s: seq<Product>) {
    forall i, j :: 0 <= i < j < |s| ==> s[i].id != s[j].id
  }

  /** The position of the document with the given id, or -1. */
  function IndexOfId(s: seq<Product>, id: string): (i: int)
    ensures -1 <= i < |s|
    ensures i == -1 <==> forall k :: 0 <= k < |s| ==> s[k].id != id
    ensures 0 <= i ==> s[i].id == id && forall k :: 0 <= k < i ==> s[k].id != id
  {
    if s == [] then -1
    else if s[0].id == id then 0
    else
      var j := IndexOfId(s[1..], id);
      if j < 0 then -1 else j + 1
  }

  /** The collection without the documents that have the given id, in order. */
  function WithoutId(s: seq<Product>, id: string): seq<Product> {
    if s == [] then []
    else (if s[0].id == id then [] else [s[0]]) + WithoutId(s[1..], id)
  }

  /** Removing the one document with an id is the same as keeping every other. */
  lemma {:induction false} RemoveAtIsWithoutId(s: seq<Product>, i: int)
    requires UniqueIds(s) && 0 <= i < |s|
    ensures s[..i] + s[i + 1..] == WithoutId(s, s[i].id)
  {
    var id := s[i].id;
    var t := s[1..];
    assert WithoutId(s, id) == (if s[0].id == id then [] else [s[0]]) + WithoutId(t, id);
    if i == 0 {
      forall k | 0 <= k < |t| ensures t[k].id != id {
        assert t[k] == s[k + 1];
      }
      WithoutAbsentId(t, id);
      assert s[..0] + s[1..] == t;
    } else {
      assert s[0].id != id;
      assert UniqueIds(t) by {
        forall a, b | 0 <= a < b < |t| ensures t[a].id != t[b].id {
          assert t[a] == s[a + 1] && t[b] == s[b + 1];
        }
      }
      assert t[i - 1] == s[i];
      RemoveAtIsWithoutId(t, i - 1);
      assert s[..i] == [s[0]] + t[..i - 1];
      assert s[i + 1..] == t[i..];
    }
  }

  lemma {:induction false} WithoutAbsentId(s: seq<Product>, id: string)
    requires forall k :: 0 <= k < |s| ==> s[k].id != id
    ensures WithoutId(s, id) == s
  {
    if s != [] {
      WithoutAbsentId(s[1..], id);
      assert s == [s[0]] + s[1..];
    }
  }

  /** WithoutId keeps exactly the documents whose id differs. */
  lemma {:induction false} WithoutIdMembers(s: seq<Product>, id: string, p: Product)
    ensures p in WithoutId(s, id) <==> p in s && p.id != id
  {
    if s != [] {
      WithoutIdMembers(s[1..], id, p);
      assert s == [s[0]] + s[1..];
    }
  }

  /** The sort definitions DataFilter chooses between. */
  datatype SortOrder = NameAscending | PriceAscending | PriceDescending

  /**
   * The `switch` on the Sort parameter: "priceAsc" and "priceDesc" (exact,
   * case-sensitive) sort by price; anything else, empty or null sorts by name.
   */
  function SortOrderOf(sort: Option<string>): (o: SortOrder)
    ensures o == PriceAscending <==> sort == Some("priceAsc")
    ensures o == PriceDescending <==> sort == Some("priceDesc")
  {
    if IsNullOrEmpty(sort) then NameAscending
    else if sort.value == "priceAsc" then PriceAscending
    else if sort.value == "priceDesc" then PriceDescending
    else NameAscending
  }

  /** Ordinal (code point by code point) string order, as the server compares strings. */
  predicate StrLe(a: string, b: string)
    decreases |a|
  {
    a == [] || (b != [] && (a[0] < b[0] || (a[0] == b[0] && StrLe(a[1..], b[1..]))))
  }

  lemma {:induction false} StrLeTotal(a: string, b: string)
    ensures StrLe(a, b) || StrLe(b, a)
    decreases |a|
  {
    if a != [] && b != [] && a[0] == b[0] {
      StrLeTotal(a[1..], b[1..]);
    }
  }

  lemma {:induction false} StrLeTransitive(a: string, b: string, c: string)
    requires StrLe(a, b) && StrLe(b, c)
    ensures StrLe(a, c)
    decreases |a|
  {
    if a != [] && a[0] == b[0] && b[0] == c[0] {
      StrLeTransitive(a[1..], b[1..], c[1..]);
    }
  }

  /** `a` may come before `b` under the sort order. */
  predicate InOrder(o: SortOrder, a: Product, b: Product) {
    match o
    case NameAscending => StrLe(a.name, b.name)
    case PriceAscending => a.price <= b.price
    case PriceDescending => a.price >= b.price
  }

  lemma InOrderTotal(o: SortOrder, a: Product, b: Product)
    ensures InOrder(o, a, b) || InOrder(o, b, a)
  {
    if o == NameAscending {
      StrLeTotal(a.name, b.name);
    }
  }

  lemma InOrderTransitive(o: SortOrder, a: Product, b: Product, c: Product)
    requires InOrder(o, a, b) && InOrder(o, b, c)
    ensures InOrder(o, a, c)
  {
    if o == NameAscending {
      StrLeTransitive(a.name, b.name, c.name);
    }
  }

  predicate Sorted(o: SortOrder, s: seq<Product>) {
    forall i, j :: 0 <= i < j < |s| ==> InOrder(o, s[i], s[j])
  }

  function Insert(o: SortOrder, x: Product, s: seq<Product>): seq<Product> {
    if s == [] then [x]
    else if InOrder(o, x, s[0]) then [x] + s
    else [s[0]] + Insert(o, x, s[1..])
  }

  /** Sort(sortDefn): a stable insertion sort under the order. */
  function SortBy(o: SortOrder, s: seq<Product>): seq<Product> {
    if s == [] then [] else Insert(o, s[0], SortBy(o, s[1..]))
  }

  lemma {:induction false} InsertPermutation(o: SortOrder, x: Product, s: seq<Product>)
    ensures multiset(Insert(o, x, s)) == multiset(s) + multiset{x}
  {
    if s != [] && !InOrder(o, x, s[0]) {
      InsertPermutation(o, x, s[1..]);
      assert s == [s[0]] + s[1..];
    }
  }

  /** A sorted sequence stays sorted under an element that may precede all of it. */
  lemma ConsSorted(o: SortOrder, a: Product, t: seq<Product>)
    requires Sorted(o, t)
    requires forall k :: 0 <= k < |t| ==> InOrder(o, a, t[k])
    ensures Sorted(o, [a] + t)
  {
    var r := [a] + t;
    forall i, j | 0 <= i < j < |r| ensures InOrder(o, r[i], r[j]) {
      assert r[j] == t[j - 1];
      if i > 0 {
        assert r[i] == t[i - 1];
      }
    }
  }

  lemma {:induction false} InsertSorted(o: SortOrder, x: Product, s: seq<Product>)
    requires Sorted(o, s)
    ensures Sorted(o, Insert(o, x, s))
  {
    if s == [] {
    } else if InOrder(o, x, s[0]) {
      forall k | 0 <= k < |s| ensures InOrder(o, x, s[k]) {
        if k > 0 {
          InOrderTransitive(o, x, s[0], s[k]);
        }
      }
      ConsSorted(o, x, s);
    } else {
      var t := s[1..];
      InsertSorted(o, x, t);
      InsertPermutation(o, x, t);
      var rest := Insert(o, x, t);
      InOrderTotal(o, x, s[0]);
      forall k | 0 <= k < |rest| ensures InOrder(o, s[0], rest[k]) {
        var y := rest[k];
        assert y in multiset(rest);
        if y != x {
          assert y in multiset(t);
          var j :| 0 <= j < |t| && t[j] == y;
          assert s[j + 1] == y;
        }
      }
      ConsSorted(o, s[0], rest);
    }
  }

  /** Sorting yields a sorted permutation of its input. */
  lemma {:induction false} SortBySortedPermutation(o: SortOrder, s: seq<Product>)
    ensures Sorted(o, SortBy(o, s))
    ensures multiset(SortBy(o, s)) == multiset(s)
  {
    if s != [] {
      SortBySortedPermutation(o, s[1..]);
      InsertSorted(o, s[0], SortBy(o, s[1..]));
      InsertPermutation(o, s[0], SortBy(o, s[1..]));
      assert s == [s[0]] + s[1..];
    }
  }

  /** No two different documents of `s` tie under the order: an equal key means the same document. */
  predicate NoTies(o: SortOrder, s: seq<Product>) {
    forall a, b :: a in s && b in s && InOrder(o, a, b) && InOrder(o, b, a) ==> a == b
  }

  /** Without ties, two sorted sequences holding the same documents start with the same one. */
  lemma SortedHeadsAgree(o: SortOrder, t: seq<Product>, u: seq<Product>)
    requires Sorted(o, t) && Sorted(o, u) && multiset(t) == multiset(u)
    requires NoTies(o, t) && t != []
    ensures u != [] && t[0] == u[0]
  {
    assert t[0] in multiset(u);
    assert u[0] in multiset(t);
    var j :| 0 <= j < |t| && t[j] == u[0];
    var i :| 0 <= i < |u| && u[i] == t[0];
    if j > 0 && i > 0 {
      assert InOrder(o, t[0], t[j]) && InOrder(o, u[0], u[i]);
    }
  }

  /** Dropping the first document keeps a sequence sorted. */
  lemma TailSorted(o: SortOrder, t: seq<Product>)
    requires Sorted(o, t) && t != []
    ensures Sorted(o, t[1..])
  {
    forall i, j | 0 <= i < j < |t| - 1 ensures InOrder(o, t[1..][i], t[1..][j]) {
      assert t[1..][i] == t[i + 1] && t[1..][j] == t[j + 1];
    }
  }

  /** Dropping the first document keeps a sequence free of ties. */
  lemma TailNoTies(o: SortOrder, t: seq<Product>)
    requires NoTies(o, t) && t != []
    ensures NoTies(o, t[1..])
  {
    forall a | a in t[1..] ensures a in t {
    }
  }

  /**
   * Without ties the sorted order is unique: two sorted sequences holding
   * the same documents are equal, whichever order a sort produced them in.
   */
  lemma {:induction false} SortedUnique(o: SortOrder, t: seq<Product>, u: seq<Product>)
    requires Sorted(o, t) && Sorted(o, u) && multiset(t) == multiset(u)
    requires NoTies(o, t)
    ensures t == u
    decreases |t|
  {
    if t == [] {
      assert |u| == |multiset(u)| == 0;
    } else {
      SortedHeadsAgree(o, t, u);
      assert t == [t[0]] + t[1..];
      assert u == [u[0]] + u[1..];
      assert multiset(t) == multiset([t[0]]) + multiset(t[1..]);
      assert multiset(u) == multiset([u[0]]) + multiset(u[1..]);
      assert multiset(t[1..]) == multiset(t) - multiset([t[0]]);
      assert multiset(u[1..]) == multiset(u) - multiset([u[0]]);
      TailSorted(o, t);
      TailSorted(o, u);
      TailNoTies(o, t);
      SortedUnique(o, t[1..], u[1..]);
    }
  }

  /**
   * With a tie the sorted order is not unique, and pages cut from two
   * different sorted orders can repeat one document and miss the other.
   */
  lemma TiedPagesMayRepeat(a: Product, b: Product)
    requires a != b && a.price == b.price
    ensures Sorted(PriceAscending, [a, b]) && Sorted(PriceAscending, [b, a])
    ensures multiset([a, b]) == multiset([b, a])
    ensures Page([a, b], 1, 1) + Page([b, a], 2, 1) == [a, a]
  {
    assert Page([a, b], 1, 1) == [a];
    assert Page([b, a], 2, 1) == [a];
  }

  /** Skip(n): drops the first `n` documents. */
  function Skip<T>(s: seq<T>, n: nat): seq<T> {
    if n >= |s| then [] else s[n..]
  }

  /** Limit(n): keeps the first `n` documents; the server reads a limit of 0 as no limit. */
  function Limit<T>(s: seq<T>, n: nat): seq<T> {
    if n == 0 || n >= |s| then s else s[..n]
  }

  /** The number of documents skipped before page `pageIndex`. */
  function Offset(pageIndex: int, pageSize: int): (n: nat)
    requires 1 <= pageIndex && 0 <= pageSize
  {
    (pageIndex - 1) * pageSize
  }

  /**
   * `.Skip((PageIndex - 1) * PageSize).Limit(PageSize)`: the window of the
   * sequence that starts at the page's offset, at most PageSize long, or
   * the whole sequence when PageSize is 0.
   */
  function Page<T>(s: seq<T>, pageIndex: int, pageSize: int): (r: seq<T>)
    requires 1 <= pageIndex && 0 <= pageSize
    ensures pageSize == 0 ==> r == s
    ensures pageSize > 0 ==> |r| <= pageSize
    ensures pageSize > 0 ==> |r| == if Offset(pageIndex, pageSize) >= |s| then 0
                                    else Min(pageSize, |s| - Offset(pageIndex, pageSize))
    ensures pageSize > 0 ==> forall k :: 0 <= k < |r| ==>
      Offset(pageIndex, pageSize) + k < |s| && r[k] == s[Offset(pageIndex, pageSize) + k]
  {
    Limit(Skip(s, Offset(pageIndex, pageSize)), pageSize)
  }

  /** A page holds only elements of the sequence; with no limit it holds all of them. */
  lemma PageWithin<T>(s: seq<T>, pageIndex: int, pageSize: int)
    requires 1 <= pageIndex && 0 <= pageSize
    ensures forall x :: x in Page(s, pageIndex, pageSize) ==> x in s
  {
    var r := Page(s, pageIndex, pageSize);
    forall x | x in r ensures x in s {
      var k :| 0 <= k < |r| && r[k] == x;
      if pageSize > 0 {
        assert s[Offset(pageIndex, pageSize) + k] == x;
      }
    }
  }

  /** A page of a sorted sequence is sorted. */
  lemma PageSorted(o: SortOrder, s: seq<Product>, pageIndex: int, pageSize: int)
    requires 1 <= pageIndex && 0 <= pageSize
    requires Sorted(o, s)
    ensures Sorted(o, Page(s, pageIndex, pageSize))
  {
    if pageSize > 0 {
      var r := Page(s, pageIndex, pageSize);
      var off := Offset(pageIndex, pageSize);
      forall i, j | 0 <= i < j < |r| ensures InOrder(o, r[i], r[j]) {
        assert r[i] == s[off + i] && r[j] == s[off + j];
      }
    }
  }

  function Min(a: int, b: int): int {
    if a <= b then a else b
  }

  /** Pages 1 to k, one after the other. */
  function Pages<T>(s: seq<T>, pageSize: int, k: nat): seq<T>
    requires 0 < pageSize
  {
    if k == 0 then [] else Pages(s, pageSize, k - 1) + Page(s, k, pageSize)
  }

  /** Consecutive pages tile the sequence: no gap, no overlap. */
  lemma {:induction false} PagesArePrefix<T>(s: seq<T>, pageSize: int, k: nat)
    requires 0 < pageSize
    ensures Pages(s, pageSize, k) == s[..Min(k * pageSize, |s|)]
  {
    if k > 0 {
      PagesArePrefix(s, pageSize, k - 1);
      var lo := Offset(k, pageSize);
      assert lo == (k - 1) * pageSize;
      assert k * pageSize == lo + pageSize;
      var p := Page(s, k, pageSize);
      if lo >= |s| {
        assert p == [];
      } else {
        assert p == s[lo..Min(lo + pageSize, |s|)];
        assert s[..lo] + s[lo..Min(lo + pageSize, |s|)] == s[..Min(lo + pageSize, |s|)];
      }
    }
  }
}
