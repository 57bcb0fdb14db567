/**
 * The pure computations behind the catalog store's actions: the single-criterion
 * filter used by `search` and `filterByCategory`, the stable price sort that
 * `Array.prototype.sort` performs for `sortByPrice`, and the first-seen distinct
 * category list built by `Array.from(new Set(...))` in `setProducts`.
 */
module Catalog {
  import opened JsValues

  /** A product as the client holds it (the server's `rating` object is flattened into `rate` and `count`). */
  datatype Product = Product(
    id: int,
    title: string,
    price: real,
    description: string,
    category: string,
    image: string,
    rate: real,
    count: int)

  /** The one predicate a view is derived with: a search term, a category, or (for stability) a price. */
  datatype Criterion = Matches(term: string) | InCategory(category: string) | PricedAt(price: real)

  /** Whether `p` is kept under criterion `c`. */
  predicate Keeps(c: Criterion, p: Product)
  {
    match c
    case Matches(term) =>
      Includes(Lower(p.title), Lower(term)) || Includes(Lower(p.category), Lower(term))
    case InCategory(category) => p.category == category
    case PricedAt(price) => p.price == price
  }

  /** `r` is obtained from `s` by deleting elements, keeping the order of the rest. */
  predicate IsSubsequence<T(==)>(r: seq<T>, s: seq<T>)
    decreases |s|
  {
    if r == [] then true
    else if s == [] then false
    else (r[0] == s[0] && IsSubsequence(r[1..], s[1..])) || IsSubsequence(r, s[1..])
  }

  /** A subsequence never holds an element more often than the sequence it comes from. */
  lemma {:induction false} SubsequenceMultiset<T>(r: seq<T>, s: seq<T>)
    requires IsSubsequence(r, s)
    ensures multiset(r) <= multiset(s)
    decreases |s|
  {
    if r == [] {
    } else if r[0] == s[0] && IsSubsequence(r[1..], s[1..]) {
      SubsequenceMultiset(r[1..], s[1..]);
      assert r == [r[0]] + r[1..] && s == [s[0]] + s[1..];
    } else {
      SubsequenceMultiset(r, s[1..]);
      assert s == [s[0]] + s[1..];
    }
  }

  /** `Array.prototype.filter`: the elements of `s` that `c` keeps, in their order. */
  function Filter(s: seq<Product>, c: Criterion): (r: seq<Product>)
    ensures |r| <= |s|
    ensures forall i :: 0 <= i < |r| ==> Keeps(c, r[i])
  {
    if s == [] then []
    else if Keeps(c, s[0]) then [s[0]] + Filter(s[1..], c)
    else Filter(s[1..], c)
  }

  /** The filtered list is a subsequence of the original: order is kept. */
  lemma {:induction false} FilterSubsequence(s: seq<Product>, c: Criterion)
    ensures IsSubsequence(Filter(s, c), s)
  {
    if s != [] {
      FilterSubsequence(s[1..], c);
      var rest := Filter(s[1..], c);
      if Keeps(c, s[0]) {
        assert ([s[0]] + rest)[0] == s[0] && ([s[0]] + rest)[1..] == rest;
      }
    }
  }

  /** Each kept product appears exactly as often as in `s`, every other product not at all. */
  lemma {:induction false} FilterCount(s: seq<Product>, c: Criterion, p: Product)
    ensures multiset(Filter(s, c))[p] == if Keeps(c, p) then multiset(s)[p] else 0
  {
    if s != [] {
      FilterCount(s[1..], c, p);
      assert s == [s[0]] + s[1..];
    }
  }

  /** Hence the filtered list is a permutation of a subsequence: its multiset is included in that of `s`. */
  lemma FilterSubMultiset(s: seq<Product>, c: Criterion)
    ensures multiset(Filter(s, c)) <= multiset(s)
  {
    FilterSubsequence(s, c);
    SubsequenceMultiset(Filter(s, c), s);
  }

  /** When `c` keeps everything, filtering changes nothing. */
  lemma {:induction false} FilterKeepingAll(s: seq<Product>, c: Criterion)
    requires forall i :: 0 <= i < |s| ==> Keeps(c, s[i])
    ensures Filter(s, c) == s
  {
    if s != [] {
      FilterKeepingAll(s[1..], c);
    }
  }

  /** Filtering distributes over concatenation. */
  lemma {:induction false} FilterAppend(a: seq<Product>, b: seq<Product>, c: Criterion)
    ensures Filter(a + b, c) == Filter(a, c) + Filter(b, c)
  {
    if a == [] {
      assert a + b == b;
    } else {
      assert (a + b)[0] == a[0] && (a + b)[1..] == a[1..] + b;
      FilterAppend(a[1..], b, c);
    }
  }

  /** `search("")` keeps every product: every string includes the empty string. */
  lemma SearchEmptyKeepsAll(s: seq<Product>)
    ensures Filter(s, Matches("")) == s
  {
    forall i | 0 <= i < |s| ensures Keeps(Matches(""), s[i]) {
      IncludesEmpty(Lower(s[i].title));
    }
    FilterKeepingAll(s, Matches(""));
  }

  /** The search is case-insensitive: changing only the case of ASCII letters in the term changes nothing. */
  lemma SearchIgnoresCase(s: seq<Product>, term: string, term': string)
    requires Lower(term) == Lower(term')
    ensures Filter(s, Matches(term)) == Filter(s, Matches(term'))
  {
    if s != [] {
      SearchIgnoresCase(s[1..], term, term');
    }
  }

  // ---------------------------------------------------------------- stable sort by price

  /** The comparator's sign: `a` may stay before `b` (`a.price - b.price <= 0`, or the reverse for descending). */
  predicate InOrder(a: Product, b: Product, ascending: bool)
  {
    if ascending then a.price <= b.price else a.price >= b.price
  }

  /** Every pair of positions is in price order. */
  predicate Ordered(s: seq<Product>, ascending: bool)
  {
    forall i, j :: 0 <= i < j < |s| ==> InOrder(s[i], s[j], ascending)
  }

  /** Inserts `x` before the first element it may precede, so it stays ahead of equal prices. */
  function Insert(x: Product, t: seq<Product>, ascending: bool): (r: seq<Product>)
    ensures multiset(r) == multiset(t) + multiset{x}
  {
    if t == [] then [x]
    else if InOrder(x, t[0], ascending) then [x] + t
    else
      assert t == [t[0]] + t[1..];
      [t[0]] + Insert(x, t[1..], ascending)
  }

  /** `y` may precede every element of `s`. */
  predicate Precedes(y: Product, s: seq<Product>, ascending: bool)
  {
    forall k :: 0 <= k < |s| ==> InOrder(y, s[k], ascending)
  }

  /** An element that may precede all of `t` and `x` may precede all of `Insert(x, t)`. */
  lemma {:induction false} InsertPreceded(y: Product, x: Product, t: seq<Product>, ascending: bool)
    requires Precedes(y, t, ascending) && InOrder(y, x, ascending)
    ensures Precedes(y, Insert(x, t, ascending), ascending)
  {
    if t != [] && !InOrder(x, t[0], ascending) {
      var rest := Insert(x, t[1..], ascending);
      assert Precedes(y, t[1..], ascending) by {
        forall k | 0 <= k < |t[1..]| ensures InOrder(y, t[1..][k], ascending) {
          assert t[1..][k] == t[k + 1];
        }
      }
      InsertPreceded(y, x, t[1..], ascending);
      var r := [t[0]] + rest;
      forall k | 0 <= k < |r| ensures InOrder(y, r[k], ascending) {
        if k > 0 {
          assert r[k] == rest[k - 1];
        }
      }
    }
  }

  /** Inserting into an ordered list gives an ordered list. */
  lemma {:induction false} InsertOrdered(x: Product, t: seq<Product>, ascending: bool)
    requires Ordered(t, ascending)
    ensures Ordered(Insert(x, t, ascending), ascending)
  {
    if t == [] {
    } else if InOrder(x, t[0], ascending) {
      var r := [x] + t;
      forall i, j | 0 <= i < j < |r| ensures InOrder(r[i], r[j], ascending) {
        if i == 0 {
          assert r[j] == t[j - 1];
        } else {
          assert r[i] == t[i - 1] && r[j] == t[j - 1];
        }
      }
    } else {
      var tail := t[1..];
      assert Ordered(tail, ascending) by {
        forall i, j | 0 <= i < j < |tail| ensures InOrder(tail[i], tail[j], ascending) {
          assert tail[i] == t[i + 1] && tail[j] == t[j + 1];
        }
      }
      assert Precedes(t[0], tail, ascending) by {
        forall k | 0 <= k < |tail| ensures InOrder(t[0], tail[k], ascending) {
          assert tail[k] == t[k + 1];
        }
      }
      var rest := Insert(x, tail, ascending);
      InsertOrdered(x, tail, ascending);
      InsertPreceded(t[0], x, tail, ascending);
      var r := [t[0]] + rest;
      forall i, j | 0 <= i < j < |r| ensures InOrder(r[i], r[j], ascending) {
        assert r[j] == rest[j - 1];
        if i > 0 {
          assert r[i] == rest[i - 1];
        }
      }
    }
  }

  /** Inserting `x` into an ordered list puts it in front of every element of its own price. */
  lemma {:induction false} InsertStable(x: Product, t: seq<Product>, ascending: bool, p: real)
    requires Ordered(t, ascending)
    ensures Filter(Insert(x, t, ascending), PricedAt(p)) ==
            (if x.price == p then [x] else []) + Filter(t, PricedAt(p))
  {
    if t == [] {
    } else if InOrder(x, t[0], ascending) {
      assert ([x] + t)[0] == x && ([x] + t)[1..] == t;
    } else {
      var rest := Insert(x, t[1..], ascending);
      InsertStable(x, t[1..], ascending, p);
      assert ([t[0]] + rest)[0] == t[0] && ([t[0]] + rest)[1..] == rest;
      assert t[0].price != x.price;
    }
  }

  /**
   * What `[...s].sort((a, b) => a.price - b.price)` (or `b.price - a.price`) yields:
   * the ECMAScript sort is stable, so it is an insertion sort by price.
   */
  function SortByPrice(s: seq<Product>, ascending: bool): (r: seq<Product>)
    ensures Ordered(r, ascending)
    ensures multiset(r) == multiset(s)
  {
    if s == [] then []
    else
      assert s == [s[0]] + s[1..];
      InsertOrdered(s[0], SortByPrice(s[1..], ascending), ascending);
      Insert(s[0], SortByPrice(s[1..], ascending), ascending)
  }

  /** The sort is stable: the products of each price keep their relative order. */
  lemma {:induction false} SortStable(s: seq<Product>, ascending: bool, p: real)
    ensures Filter(SortByPrice(s, ascending), PricedAt(p)) == Filter(s, PricedAt(p))
  {
    if s != [] {
      SortStable(s[1..], ascending, p);
      InsertStable(s[0], SortByPrice(s[1..], ascending), ascending, p);
      assert s == [s[0]] + s[1..];
      FilterAppend([s[0]], s[1..], PricedAt(p));
    }
  }

  /** No two positions of `s` share a price. */
  predicate DistinctPrices(s: seq<Product>)
  {
    forall i, j :: 0 <= i < j < |s| ==> s[i].price != s[j].price
  }

  /** The same condition on a multiset: a price names exactly one occurrence. */
  predicate UniquePrices(m: multiset<Product>)
  {
    forall x, y :: x in m && y in m && x.price == y.price ==> x == y && m[x] == 1
  }

  /** Pairwise distinct prices in a list mean unique prices in its multiset. */
  lemma {:induction false} DistinctUnique(s: seq<Product>)
    requires DistinctPrices(s)
    ensures UniquePrices(multiset(s))
  {
    if s != [] {
      var t := s[1..];
      assert DistinctPrices(t) by {
        forall i, j | 0 <= i < j < |t| ensures t[i].price != t[j].price {
          assert t[i] == s[i + 1] && t[j] == s[j + 1];
        }
      }
      DistinctUnique(t);
      assert s == [s[0]] + t;
      assert multiset(s) == multiset{s[0]} + multiset(t);
      forall y | y in multiset(t) ensures y.price != s[0].price {
        var k :| 0 <= k < |t| && t[k] == y;
        assert y == s[k + 1];
      }
    }
  }

  /** The reversed list. */
  function Reverse(s: seq<Product>): (r: seq<Product>)
    ensures |r| == |s|
    ensures forall i :: 0 <= i < |s| ==> r[i] == s[|s| - 1 - i]
    ensures multiset(r) == multiset(s)
  {
    if s == [] then []
    else
      assert s == [s[0]] + s[1..];
      Reverse(s[1..]) + [s[0]]
  }

  /** Reversing a list ordered one way orders it the other way. */
  lemma ReverseOrdered(s: seq<Product>, ascending: bool)
    requires Ordered(s, ascending)
    ensures Ordered(Reverse(s), !ascending)
  {
    var r := Reverse(s);
    forall i, j | 0 <= i < j < |r| ensures InOrder(r[i], r[j], !ascending) {
      assert InOrder(s[|s| - 1 - j], s[|s| - 1 - i], ascending);
    }
  }

  /** The tail of an ordered list is ordered. */
  lemma TailOrdered(s: seq<Product>, ascending: bool)
    requires s != [] && Ordered(s, ascending)
    ensures Ordered(s[1..], ascending)
  {
    var t := s[1..];
    forall i, j | 0 <= i < j < |t| ensures InOrder(t[i], t[j], ascending) {
      assert t[i] == s[i + 1] && t[j] == s[j + 1];
    }
  }

  /** Two ordered permutations of each other with unique prices start with the same product. */
  lemma HeadsAgree(a: seq<Product>, b: seq<Product>, ascending: bool)
    requires a != [] && b != []
    requires Ordered(a, ascending) && Ordered(b, ascending)
    requires multiset(a) == multiset(b) && UniquePrices(multiset(a))
    ensures a[0] == b[0]
  {
    assert a[0] in multiset(b) && b[0] in multiset(a);
    var j :| 0 <= j < |b| && b[j] == a[0];
    var k :| 0 <= k < |a| && a[k] == b[0];
    assert InOrder(b[0], a[0], ascending) by {
      if j > 0 {
        assert InOrder(b[0], b[j], ascending);
      }
    }
    assert InOrder(a[0], b[0], ascending) by {
      if k > 0 {
        assert InOrder(a[0], a[k], ascending);
      }
    }
    assert a[0] in multiset(a);
  }

  /** A sub-multiset of one with unique prices has unique prices. */
  lemma UniqueSub(t: multiset<Product>, m: multiset<Product>)
    requires t <= m && UniquePrices(m)
    ensures UniquePrices(t)
  {
    forall x, y | x in t && y in t && x.price == y.price ensures x == y && t[x] == 1 {
      assert x in m && y in m && m[x] == 1;
    }
  }

  /** Equal multisets with equal heads have equal multisets of tails. */
  lemma TailsMatch(a: seq<Product>, b: seq<Product>)
    requires a != [] && b != [] && a[0] == b[0] && multiset(a) == multiset(b)
    ensures multiset(a[1..]) == multiset(b[1..]) && multiset(a[1..]) <= multiset(a)
  {
    assert a == [a[0]] + a[1..] && b == [b[0]] + b[1..];
    assert multiset(a) == multiset{a[0]} + multiset(a[1..]);
    assert multiset(b) == multiset{b[0]} + multiset(b[1..]);
    assert multiset(a[1..]) <= multiset{a[0]} + multiset(a[1..]);
  }

  /** With unique prices, the order and the multiset determine the list. */
  lemma {:induction false} OrderedUnique(a: seq<Product>, b: seq<Product>, ascending: bool)
    requires Ordered(a, ascending) && Ordered(b, ascending)
    requires multiset(a) == multiset(b) && UniquePrices(multiset(a))
    ensures a == b
  {
    if a == [] {
      assert |b| == |multiset(b)| == 0;
    } else {
      assert a[0] in multiset(b);
      HeadsAgree(a, b, ascending);
      TailsMatch(a, b);
      UniqueSub(multiset(a[1..]), multiset(a));
      TailOrdered(a, ascending);
      TailOrdered(b, ascending);
      OrderedUnique(a[1..], b[1..], ascending);
      assert a == [a[0]] + a[1..] && b == [b[0]] + b[1..];
    }
  }

  /** Without ties, the descending sort is the ascending sort reversed. */
  lemma SortDirectionsMirror(v: seq<Product>)
    requires DistinctPrices(v)
    ensures SortByPrice(v, false) == Reverse(SortByPrice(v, true))
  {
    var up := SortByPrice(v, true);
    DistinctUnique(v);
    ReverseOrdered(up, true);
    OrderedUnique(SortByPrice(v, false), Reverse(up), false);
  }

  /**
   * Sorting ascending and then descending, as two clicks of the price sort do,
   * gives exactly the ascending view reversed when no two prices tie.
   */
  lemma AscThenDescReverses(v: seq<Product>)
    requires DistinctPrices(v)
    ensures SortByPrice(SortByPrice(v, true), false) == Reverse(SortByPrice(v, true))
  {
    var up := SortByPrice(v, true);
    DistinctUnique(v);
    ReverseOrdered(up, true);
    OrderedUnique(SortByPrice(up, false), Reverse(up), false);
  }

  // ---------------------------------------------------------------- categories

  /** Position of the first product with category `c`, or `|ps|` when there is none. */
  function FirstIndex(ps: seq<Product>, c: string): (r: nat)
    ensures r <= |ps|
    ensures r < |ps| ==> ps[r].category == c
  {
    if ps == [] then 0 else if ps[0].category == c then 0 else 1 + FirstIndex(ps[1..], c)
  }

  /** No product before `FirstIndex` has the category. */
  lemma {:induction false} FirstIndexIsFirst(ps: seq<Product>, c: string)
    ensures forall i :: 0 <= i < FirstIndex(ps, c) ==> ps[i].category != c
  {
    if ps != [] && ps[0].category != c {
      FirstIndexIsFirst(ps[1..], c);
      forall i | 0 <= i < FirstIndex(ps, c) ensures ps[i].category != c {
        if i > 0 {
          assert ps[i] == ps[1..][i - 1];
        }
      }
    }
  }

  /** A position holding the category with none before it is `FirstIndex`. */
  lemma {:induction false} FirstIndexAt(ps: seq<Product>, c: string, k: nat)
    requires k <= |ps| && (k < |ps| ==> ps[k].category == c)
    requires forall i :: 0 <= i < k ==> ps[i].category != c
    ensures FirstIndex(ps, c) == k
  {
    if ps != [] && k > 0 {
      assert ps[0].category != c;
      forall i | 0 <= i < k - 1 ensures ps[1..][i].category != c {
        assert ps[1..][i] == ps[i + 1];
      }
      FirstIndexAt(ps[1..], c, k - 1);
    }
  }

  /** A first occurrence inside a prefix stays the first occurrence in the whole list. */
  lemma FirstIndexInPrefix(ps: seq<Product>, n: nat, c: string)
    requires n <= |ps| && FirstIndex(ps[..n], c) < n
    ensures FirstIndex(ps, c) == FirstIndex(ps[..n], c)
  {
    var k := FirstIndex(ps[..n], c);
    FirstIndexIsFirst(ps[..n], c);
    assert ps[k] == ps[..n][k];
    forall i | 0 <= i < k ensures ps[i].category != c {
      assert ps[i] == ps[..n][i];
    }
    FirstIndexAt(ps, c, k);
  }

  /**
   * `Array.from(new Set(ps.map(p => p.category)))`: every category of `ps`, each once,
   * in the order of its first occurrence.
   */
  function Categories(ps: seq<Product>): (r: seq<string>)
    ensures |r| <= |ps|
  {
    if ps == [] then []
    else
      var rest := Categories(ps[..|ps| - 1]);
      var c := ps[|ps| - 1].category;
      if c in rest then rest else rest + [c]
  }

  /** Every product's category is listed. */
  lemma {:induction false} CategoriesCover(ps: seq<Product>)
    ensures forall i :: 0 <= i < |ps| ==> ps[i].category in Categories(ps)
  {
    if ps != [] {
      var n := |ps| - 1;
      CategoriesCover(ps[..n]);
      assert forall i :: 0 <= i < n ==> ps[i] == ps[..n][i];
    }
  }

  /** The category list covers `ps` and lists categories by increasing first occurrence. */
  lemma {:induction false} CategoriesFirstSeen(ps: seq<Product>)
    ensures forall i :: 0 <= i < |ps| ==> ps[i].category in Categories(ps)
    ensures forall j :: 0 <= j < |Categories(ps)| ==> FirstIndex(ps, Categories(ps)[j]) < |ps|
    ensures forall j, k :: 0 <= j < k < |Categories(ps)| ==>
              FirstIndex(ps, Categories(ps)[j]) < FirstIndex(ps, Categories(ps)[k])
  {
    CategoriesCover(ps);
    if ps != [] {
      var n := |ps| - 1;
      var init := ps[..n];
      var rest := Categories(init);
      var c := ps[n].category;
      CategoriesFirstSeen(init);
      forall j | 0 <= j < |rest| ensures FirstIndex(ps, rest[j]) == FirstIndex(init, rest[j]) {
        FirstIndexInPrefix(ps, n, rest[j]);
      }
      if c in rest {
        assert Categories(ps) == rest;
      } else {
        CategoriesCover(init);
        forall i | 0 <= i < n ensures ps[i].category != c {
          assert ps[i] == init[i];
        }
        FirstIndexAt(ps, c, n);
        var r := Categories(ps);
        assert r == rest + [c];
        forall j | 0 <= j < |r| ensures FirstIndex(ps, r[j]) < |ps| {
          if j < |rest| {
            assert r[j] == rest[j];
          }
        }
        forall j, k | 0 <= j < k < |r| ensures FirstIndex(ps, r[j]) < FirstIndex(ps, r[k]) {
          assert r[j] == rest[j];
          if k < |rest| {
            assert r[k] == rest[k];
          } else {
            assert r[k] == c;
          }
        }
      }
    }
  }

  /** The category list never repeats a category. */
  lemma CategoriesDistinct(ps: seq<Product>)
    ensures forall j, k :: 0 <= j < k < |Categories(ps)| ==> Categories(ps)[j] != Categories(ps)[k]
  {
    CategoriesFirstSeen(ps);
  }

  /** The category list holds exactly the categories that occur in `ps`. */
  lemma CategoriesExact(ps: seq<Product>, c: string)
    ensures c in Categories(ps) <==> exists i :: 0 <= i < |ps| && ps[i].category == c
  {
    CategoriesFirstSeen(ps);
    if c in Categories(ps) {
      var j :| 0 <= j < |Categories(ps)| && Categories(ps)[j] == c;
      assert ps[FirstIndex(ps, c)].category == c;
    }
  }
}
