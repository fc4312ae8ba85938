/**
 * The product catalog of the products page: the static product list is
 * projected to the visible list by a conjunctive filter (category and a
 * case-insensitive name search) followed by a sort on one key.
 *
 * Prices are whole cents and ratings whole tenths, so the comparator's
 * differences have the same sign as the source's floating-point ones.
 * `localeCompare` is a parameter: any consistent comparator on strings.
 */
module ProductCatalog {

  /** One catalog entry. */
  datatype Product = Product(
    id: int,
    name: string,
    category: string,
    price: int,       // cents
    image: string,
    rating: int,      // tenths of a star
    reviews: nat,
    tags: seq<string>,
    description: string)

  // ---------------------------------------------------------------------
  // ASCII lowering and substring search (toLowerCase / includes)
  // ---------------------------------------------------------------------

  function LowerChar(c: char): (r: char)
    ensures 'A' <= c <= 'Z' ==> r as int == c as int + 32
    ensures !('A' <= c <= 'Z') ==> r == c
  {
    if 'A' <= c <= 'Z' then (c as int + 32) as char else c
  }

  /** `toLowerCase`, restricted to the ASCII letters. */
  function Lower(s: string): (r: string)
    ensures |r| == |s|
    ensures forall i :: 0 <= i < |s| ==> r[i] == LowerChar(s[i])
  {
    seq(|s|, i requires 0 <= i < |s| => LowerChar(s[i]))
  }

  /** Lowering twice is lowering once: the search is already case-folded. */
  lemma LowerIdempotent(s: string)
    ensures Lower(Lower(s)) == Lower(s)
  {
  }

  /** `s.includes(t)`: t occurs in s at some offset (the empty string everywhere). */
  function Contains(s: string, t: string): (r: bool)
    decreases |s|
  {
    (|t| <= |s| && s[..|t|] == t) || (|s| > 0 && Contains(s[1..], t))
  }

  /** t occurs in s starting at offset i. */
  predicate OccursAt(s: string, t: string, i: int)
  {
    0 <= i <= |s| - |t| && s[i..i + |t|] == t
  }

  /** Contains agrees with the offset-based definition of a substring, both ways. */
  lemma {:induction false} ContainsIff(s: string, t: string)
    ensures Contains(s, t) <==> exists i :: OccursAt(s, t, i)
    decreases |s|
  {
    if |t| <= |s| && s[..|t|] == t {
      assert OccursAt(s, t, 0);
    } else if |s| > 0 {
      ContainsIff(s[1..], t);
      if Contains(s[1..], t) {
        var i :| OccursAt(s[1..], t, i);
        assert s[i + 1..i + 1 + |t|] == s[1..][i..i + |t|];
        assert OccursAt(s, t, i + 1);
      } else {
        forall i | OccursAt(s, t, i)
          ensures false
        {
          if i > 0 {
            assert s[i..i + |t|] == s[1..][i - 1..i - 1 + |t|];
            assert OccursAt(s[1..], t, i - 1);
          }
        }
      }
    } else {
      forall i | OccursAt(s, t, i)
        ensures false
      {
      }
    }
  }

  // ---------------------------------------------------------------------
  // Filtering (filteredProducts)
  // ---------------------------------------------------------------------

  /** The filter callback: category test and search test, both required. */
  predicate Matches(p: Product, selectedCategory: string, searchTerm: string)
  {
    (selectedCategory == "all" || p.category == selectedCategory)
    && Contains(Lower(p.name), Lower(searchTerm))
  }

  /** `products.filter(...)`: every kept product passes both tests. */
  function Filter(products: seq<Product>, selectedCategory: string, searchTerm: string): (r: seq<Product>)
    ensures |r| <= |products|
    ensures forall p :: p in r ==> p in products && Matches(p, selectedCategory, searchTerm)
  {
    if products == [] then []
    else
      var rest := Filter(products[1..], selectedCategory, searchTerm);
      if Matches(products[0], selectedCategory, searchTerm) then [products[0]] + rest else rest
  }

  /** Filtering keeps source order: it distributes over concatenation. */
  lemma {:induction false} FilterAppend(a: seq<Product>, b: seq<Product>, cat: string, search: string)
    ensures Filter(a + b, cat, search) == Filter(a, cat, search) + Filter(b, cat, search)
    decreases |a|
  {
    if a != [] {
      assert (a + b)[1..] == a[1..] + b;
      FilterAppend(a[1..], b, cat, search);
    } else {
      assert a + b == b;
    }
  }

  /** Filtering drops nothing that matches: each matching product keeps all its occurrences, every other one loses all of them. */
  lemma {:induction false} FilterCounts(products: seq<Product>, cat: string, search: string, p: Product)
    ensures multiset(Filter(products, cat, search))[p]
         == if Matches(p, cat, search) then multiset(products)[p] else 0
    decreases |products|
  {
    if products != [] {
      FilterCounts(products[1..], cat, search, p);
      assert products == [products[0]] + products[1..];
    }
  }

  /** With category 'all' and an empty search the filter is the identity. */
  lemma {:induction false} FilterAllEmptyIsIdentity(products: seq<Product>)
    ensures Filter(products, "all", "") == products
    decreases |products|
  {
    if products != [] {
      var n := Lower(products[0].name);
      assert n[..0] == Lower("");
      FilterAllEmptyIsIdentity(products[1..]);
    }
  }

  /** The search term is case-insensitive: it only matters up to ASCII lowering. */
  lemma SearchIgnoresCase(p: Product, cat: string, search: string)
    ensures Matches(p, cat, search) == Matches(p, cat, Lower(search))
  {
    LowerIdempotent(search);
  }

  // ---------------------------------------------------------------------
  // Sorting (sortedProducts)
  // ---------------------------------------------------------------------

  function Sign(x: int): (r: int)
    ensures r == 0 <==> x == 0
    ensures r < 0 <==> x < 0
    ensures -1 <= r <= 1
  {
    if x < 0 then -1 else if x == 0 then 0 else 1
  }

  /**
   * What `Array.prototype.sort` demands of a comparator, and what
   * `localeCompare` provides: swapping the arguments flips the sign, and
   * "not after" is transitive.
   */
  ghost predicate ConsistentComparator(cmp: (string, string) -> int)
  {
    && (forall a, b :: Sign(cmp(a, b)) == -Sign(cmp(b, a)))
    && (forall a, b, c :: cmp(a, b) <= 0 && cmp(b, c) <= 0 ==> cmp(a, c) <= 0)
  }

  /** The sort callback: price ascending, rating descending, otherwise by name. */
  function Compare(sortBy: string, localeCompare: (string, string) -> int, a: Product, b: Product): (r: int)
  {
    if sortBy == "price" then a.price - b.price
    else if sortBy == "rating" then b.rating - a.rating
    else localeCompare(a.name, b.name)
  }

  /** No element of s is placed after a later one. */
  ghost predicate SortedBy(s: seq<Product>, sortBy: string, localeCompare: (string, string) -> int)
  {
    forall i, j :: 0 <= i < j < |s| ==> Compare(sortBy, localeCompare, s[i], s[j]) <= 0
  }

  /** The product comparator is consistent whenever localeCompare is. */
  lemma CompareConsistent(sortBy: string, localeCompare: (string, string) -> int, a: Product, b: Product, c: Product)
    requires ConsistentComparator(localeCompare)
    ensures Sign(Compare(sortBy, localeCompare, a, b)) == -Sign(Compare(sortBy, localeCompare, b, a))
    ensures Compare(sortBy, localeCompare, a, b) <= 0 && Compare(sortBy, localeCompare, b, c) <= 0
            ==> Compare(sortBy, localeCompare, a, c) <= 0
  {
  }

  /** Insert x in front of the first element it does not come after. */
  function Insert(x: Product, s: seq<Product>, sortBy: string, localeCompare: (string, string) -> int): (r: seq<Product>)
    ensures multiset(r) == multiset(s) + multiset{x}
  {
    if s == [] || Compare(sortBy, localeCompare, x, s[0]) <= 0 then [x] + s
    else
      assert s == [s[0]] + s[1..];
      [s[0]] + Insert(x, s[1..], sortBy, localeCompare)
  }

  /** `[...filteredProducts].sort(...)`: the copy, reordered; the input value itself is untouched. */
  function SortProducts(products: seq<Product>, sortBy: string, localeCompare: (string, string) -> int): (r: seq<Product>)
    ensures multiset(r) == multiset(products)
  {
    if products == [] then []
    else
      assert products == [products[0]] + products[1..];
      Insert(products[0], SortProducts(products[1..], sortBy, localeCompare), sortBy, localeCompare)
  }

  lemma {:induction false} InsertSorted(x: Product, s: seq<Product>, sortBy: string, localeCompare: (string, string) -> int)
    requires ConsistentComparator(localeCompare)
    requires SortedBy(s, sortBy, localeCompare)
    ensures SortedBy(Insert(x, s, sortBy, localeCompare), sortBy, localeCompare)
    decreases |s|
  {
    var r := Insert(x, s, sortBy, localeCompare);
    if s == [] {
    } else if Compare(sortBy, localeCompare, x, s[0]) <= 0 {
      forall j | 0 < j < |r|
        ensures Compare(sortBy, localeCompare, r[0], r[j]) <= 0
      {
        CompareConsistent(sortBy, localeCompare, x, s[0], s[j - 1]);
      }
    } else {
      CompareConsistent(sortBy, localeCompare, x, s[0], s[0]);
      var t := Insert(x, s[1..], sortBy, localeCompare);
      InsertSorted(x, s[1..], sortBy, localeCompare);
      assert r == [s[0]] + t;
      forall j | 0 <= j < |t|
        ensures Compare(sortBy, localeCompare, s[0], t[j]) <= 0
      {
        assert t[j] in multiset(t);
        if t[j] != x {
          assert t[j] in s[1..];
          var k :| 0 <= k < |s[1..]| && s[1..][k] == t[j];
          assert s[k + 1] == t[j];
        }
      }
    }
  }

  /** The sorted copy is ordered by the selected key. */
  lemma {:induction false} SortProductsSorted(products: seq<Product>, sortBy: string, localeCompare: (string, string) -> int)
    requires ConsistentComparator(localeCompare)
    ensures SortedBy(SortProducts(products, sortBy, localeCompare), sortBy, localeCompare)
    decreases |products|
  {
    if products != [] {
      SortProductsSorted(products[1..], sortBy, localeCompare);
      InsertSorted(products[0], SortProducts(products[1..], sortBy, localeCompare), sortBy, localeCompare);
    }
  }

  /** The visible list: the filtered products, sorted on a copy. */
  function VisibleProducts(products: seq<Product>, selectedCategory: string, searchTerm: string,
                           sortBy: string, localeCompare: (string, string) -> int): (r: seq<Product>)
    ensures multiset(r) == multiset(Filter(products, selectedCategory, searchTerm))
  {
    SortProducts(Filter(products, selectedCategory, searchTerm), sortBy, localeCompare)
  }

  /** By key: prices ascend, ratings descend, names follow localeCompare. */
  lemma VisibleProductsOrdered(products: seq<Product>, selectedCategory: string, searchTerm: string,
                               sortBy: string, localeCompare: (string, string) -> int)
    requires ConsistentComparator(localeCompare)
    ensures var r := VisibleProducts(products, selectedCategory, searchTerm, sortBy, localeCompare);
      && (sortBy == "price" ==> forall i, j :: 0 <= i < j < |r| ==> r[i].price <= r[j].price)
      && (sortBy == "rating" ==> forall i, j :: 0 <= i < j < |r| ==> r[i].rating >= r[j].rating)
      && (sortBy != "price" && sortBy != "rating" ==>
            forall i, j :: 0 <= i < j < |r| ==> localeCompare(r[i].name, r[j].name) <= 0)
  {
    var r := VisibleProducts(products, selectedCategory, searchTerm, sortBy, localeCompare);
    SortProductsSorted(Filter(products, selectedCategory, searchTerm), sortBy, localeCompare);
    assert forall i, j :: 0 <= i < j < |r| ==> Compare(sortBy, localeCompare, r[i], r[j]) <= 0;
  }

  /**
   * The page's initial state (category 'all', empty search, sort by name)
   * shows every product, in name order.
   */
  lemma InitialViewShowsEveryProduct(products: seq<Product>, localeCompare: (string, string) -> int)
    requires ConsistentComparator(localeCompare)
    ensures var r := VisibleProducts(products, "all", "", "name", localeCompare);
      && multiset(r) == multiset(products)
      && forall i, j :: 0 <= i < j < |r| ==> localeCompare(r[i].name, r[j].name) <= 0
  {
    FilterAllEmptyIsIdentity(products);
    VisibleProductsOrdered(products, "all", "", "name", localeCompare);
  }

  /** Two products, A (price 10, rating 4.9) and B (price 5, rating 4.5): by price B then A, by rating A then B. */
  lemma TwoProductExample(localeCompare: (string, string) -> int)
    ensures var a := Product(1, "A", "snacks", 1000, "", 49, 0, [], "");
      var b := Product(2, "B", "snacks", 500, "", 45, 0, [], "");
      && SortProducts([a, b], "price", localeCompare) == [b, a]
      && SortProducts([a, b], "rating", localeCompare) == [a, b]
  {
  }
}
