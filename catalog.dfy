/** The catalog store: categories, brands, products and slides, each a table keyed by its
    auto-increment id, and the rules the catalog controllers keep between them. Prices are
    whole cents. */
module Catalog {
  import opened Common

  datatype Category = Category(name: string, description: Option<string>)

  datatype Brand = Brand(name: string, description: Option<string>, logo: Option<string>)

  datatype Product = Product(
    name: string,
    description: string,
    price: int,
    image: Option<string>,
    categoryId: nat,
    brandId: Option<nat>)

  datatype Slide = Slide(
    name: string,
    description: string,
    price: int,
    image: Option<string>,
    productId: nat,
    enable: Option<bool>,
    link: Option<string>,
    ssorder: Option<nat>)

  /** The `unique:categories` rule, excepting row `except` when an update names itself. */
  predicate CategoryNameUsed(categories: map<nat, Category>, name: string, except: Option<nat>) {
    exists id :: id in categories && Some(id) != except && categories[id].name == name
  }

  predicate BrandNameUsed(brands: map<nat, Brand>, name: string, except: Option<nat>) {
    exists id :: id in brands && Some(id) != except && brands[id].name == name
  }

  ghost predicate UniqueCategoryNames(categories: map<nat, Category>) {
    forall a, b :: a in categories && b in categories && a != b ==> categories[a].name != categories[b].name
  }

  ghost predicate UniqueBrandNames(brands: map<nat, Brand>) {
    forall a, b :: a in brands && b in brands && a != b ==> brands[a].name != brands[b].name
  }

  /** A product's category exists and its brand, when it has one, exists. */
  predicate References(p: Product, categories: map<nat, Category>, brands: map<nat, Brand>) {
    p.categoryId in categories && (p.brandId.Some? ==> p.brandId.value in brands)
  }

  /** `count() > 0` on a category's or a brand's products. */
  predicate HasProducts(products: map<nat, Product>, categoryOrBrand: Product -> bool) {
    exists id :: id in products && categoryOrBrand(products[id])
  }

  /** The ids below `bound` that are keys of `m`, newest (largest) first: `latest()`, with
      creation order standing for `created_at`. */
  function NewestFirst<T>(m: map<nat, T>, bound: nat): (r: seq<nat>)
    ensures forall id :: id in r <==> id in m && id < bound
    ensures forall i, j :: 0 <= i < j < |r| ==> r[i] > r[j]
  {
    if bound == 0 then []
    else
      var rest := NewestFirst(m, bound - 1);
      assert forall j :: 0 <= j < |rest| ==> rest[j] in rest;
      (if bound - 1 in m then [bound - 1] else []) + rest
  }

  /** The ids below `bound` that are keys of `m`, in insertion order. */
  function OldestFirst<T>(m: map<nat, T>, bound: nat): (r: seq<nat>)
    ensures forall id :: id in r <==> id in m && id < bound
    ensures forall i, j :: 0 <= i < j < |r| ==> r[i] < r[j]
  {
    if bound == 0 then []
    else
      var rest := OldestFirst(m, bound - 1);
      assert forall j :: 0 <= j < |rest| ==> rest[j] in rest;
      rest + (if bound - 1 in m then [bound - 1] else [])
  }

  /** The sort key of `orderBy('ssorder')`: a null order sorts before every number. */
  function SortKey(s: Slide): int {
    if s.ssorder.Some? then s.ssorder.value else -1
  }

  ghost predicate SortedBySsorder(ids: seq<nat>, slides: map<nat, Slide>)
    requires forall id :: id in ids ==> id in slides
  {
    forall i, j :: 0 <= i < j < |ids| ==> SortKey(slides[ids[i]]) <= SortKey(slides[ids[j]])
  }

  /** No id occurs twice. */
  predicate Distinct(ids: seq<nat>) {
    forall i, j :: 0 <= i < j < |ids| ==> ids[i] != ids[j]
  }

  lemma {:induction false} DistinctCountsOnce(ids: seq<nat>, x: nat)
    requires Distinct(ids)
    ensures multiset(ids)[x] <= 1
  {
    if |ids| > 0 {
      var rest := ids[1..];
      assert ids == [ids[0]] + rest;
      assert Distinct(rest) by {
        forall i, j | 0 <= i < j < |rest|
          ensures rest[i] != rest[j]
        {
          assert rest[i] == ids[i + 1] && rest[j] == ids[j + 1];
        }
      }
      DistinctCountsOnce(rest, x);
      if ids[0] == x {
        assert x !in rest by {
          forall k | 0 <= k < |rest|
            ensures rest[k] != x
          {
            assert rest[k] == ids[k + 1];
          }
        }
      }
    }
  }

  lemma RepeatCountsTwice(ids: seq<nat>, i: nat, j: nat)
    requires i < j < |ids|
    ensures ids[i] == ids[j] ==> multiset(ids)[ids[i]] >= 2
  {
    assert ids == ids[..j] + [ids[j]] + ids[j + 1..];
    assert ids[..j][i] == ids[i];
  }

  /** A permutation of a list without repeats has none either. */
  lemma DistinctPermutation(a: seq<nat>, b: seq<nat>)
    requires multiset(a) == multiset(b) && Distinct(a)
    ensures Distinct(b)
  {
    forall i, j | 0 <= i < j < |b|
      ensures b[i] != b[j]
    {
      DistinctCountsOnce(a, b[i]);
      RepeatCountsTwice(b, i, j);
    }
  }

  /** Every id of `ids` sorts at or after `key`. */
  ghost predicate AllFrom(key: int, ids: seq<nat>, slides: map<nat, Slide>)
    requires forall x :: x in ids ==> x in slides
  {
    forall x :: x in ids ==> key <= SortKey(slides[x])
  }

  lemma SortedHead(ids: seq<nat>, slides: map<nat, Slide>)
    requires |ids| > 0 && forall x :: x in ids ==> x in slides
    requires SortedBySsorder(ids, slides)
    ensures AllFrom(SortKey(slides[ids[0]]), ids, slides)
  {
    forall x | x in ids ensures SortKey(slides[ids[0]]) <= SortKey(slides[x]) {
      var k :| 0 <= k < |ids| && ids[k] == x;
      if k > 0 {
        assert SortKey(slides[ids[0]]) <= SortKey(slides[ids[k]]);
      }
    }
  }

  lemma SortedCons(first: nat, rest: seq<nat>, slides: map<nat, Slide>)
    requires first in slides && forall x :: x in rest ==> x in slides
    requires SortedBySsorder(rest, slides) && AllFrom(SortKey(slides[first]), rest, slides)
    ensures forall x :: x in [first] + rest ==> x in slides
    ensures SortedBySsorder([first] + rest, slides)
  {
    var r := [first] + rest;
    forall i, j | 0 <= i < j < |r| ensures SortKey(slides[r[i]]) <= SortKey(slides[r[j]]) {
      assert r[j] == rest[j - 1];
      if i > 0 {
        assert r[i] == rest[i - 1];
      } else {
        assert rest[j - 1] in rest;
      }
    }
  }

  lemma SortedTail(ids: seq<nat>, slides: map<nat, Slide>)
    requires |ids| > 0 && forall x :: x in ids ==> x in slides
    requires SortedBySsorder(ids, slides)
    ensures forall x :: x in ids[1..] ==> x in slides
    ensures SortedBySsorder(ids[1..], slides)
  {
    var tail := ids[1..];
    forall i, j | 0 <= i < j < |tail| ensures SortKey(slides[tail[i]]) <= SortKey(slides[tail[j]]) {
      assert tail[i] == ids[i + 1] && tail[j] == ids[j + 1];
    }
  }

  /** Insert `id` into `ids` after the leading ids whose key is not larger. */
  function InsertBySsorder(id: nat, ids: seq<nat>, slides: map<nat, Slide>): (r: seq<nat>)
    requires id in slides && forall x :: x in ids ==> x in slides
    ensures multiset(r) == multiset(ids) + multiset{id}
    ensures forall x :: x in r ==> x == id || x in ids
  {
    if |ids| == 0 then [id]
    else if SortKey(slides[id]) < SortKey(slides[ids[0]]) then [id] + ids
    else
      assert ids == [ids[0]] + ids[1..];
      [ids[0]] + InsertBySsorder(id, ids[1..], slides)
  }

  /** Inserting into a sorted list keeps it sorted. */
  lemma {:induction false} InsertKeepsSorted(id: nat, ids: seq<nat>, slides: map<nat, Slide>)
    requires id in slides && forall x :: x in ids ==> x in slides
    requires SortedBySsorder(ids, slides)
    ensures forall x :: x in InsertBySsorder(id, ids, slides) ==> x in slides
    ensures SortedBySsorder(InsertBySsorder(id, ids, slides), slides)
  {
    if |ids| == 0 {
    } else if SortKey(slides[id]) < SortKey(slides[ids[0]]) {
      SortedHead(ids, slides);
      SortedCons(id, ids, slides);
    } else {
      var first, tail := ids[0], ids[1..];
      assert ids == [first] + tail;
      SortedHead(ids, slides);
      SortedTail(ids, slides);
      InsertKeepsSorted(id, tail, slides);
      var rest := InsertBySsorder(id, tail, slides);
      SortedCons(first, rest, slides);
    }
  }

  /** Insertion sort by `ssorder`. */
  function SortBySsorder(ids: seq<nat>, slides: map<nat, Slide>): (r: seq<nat>)
    requires forall x :: x in ids ==> x in slides
    ensures multiset(r) == multiset(ids)
    ensures forall x :: x in r ==> x in slides
    ensures SortedBySsorder(r, slides)
  {
    if |ids| == 0 then []
    else
      var init := ids[..|ids| - 1];
      assert ids == init + [ids[|ids| - 1]];
      var sorted := SortBySsorder(init, slides);
      InsertKeepsSorted(ids[|ids| - 1], sorted, slides);
      InsertBySsorder(ids[|ids| - 1], sorted, slides)
  }

  /** The four tables, updated in place by the catalog controllers. */
  class CatalogDb {
    var categories: map<nat, Category>
    var brands: map<nat, Brand>
    var products: map<nat, Product>
    var slides: map<nat, Slide>
    var nextCategoryId: nat
    var nextBrandId: nat
    var nextProductId: nat
    var nextSlideId: nat

    /** Ids are below their table's next id; category and brand names are unique; every
        product references an existing category and, optionally, an existing brand. */
    ghost predicate Valid()
      reads this
    {
      && (forall id :: id in categories ==> id < nextCategoryId)
      && (forall id :: id in brands ==> id < nextBrandId)
      && (forall id :: id in products ==> id < nextProductId)
      && (forall id :: id in slides ==> id < nextSlideId)
      && UniqueCategoryNames(categories)
      && UniqueBrandNames(brands)
      && (forall id :: id in products ==> References(products[id], categories, brands))
    }

    constructor ()
      ensures Valid()
      ensures categories == map[] && brands == map[] && products == map[] && slides == map[]
      ensures nextCategoryId == 1 && nextBrandId == 1 && nextProductId == 1 && nextSlideId == 1
    {
      categories, brands, products, slides := map[], map[], map[], map[];
      nextCategoryId, nextBrandId, nextProductId, nextSlideId := 1, 1, 1, 1;
    }
  }
}
