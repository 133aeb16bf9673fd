/**
 * The statistics block of the profile view: the user's products newest
 * first, their total quantity and spend, per-category count and amount
 * (accumulated into a dictionary that keeps insertion order), the
 * most-purchased category and the zero-guarded average price.
 */
module ProfileStats {
  import opened Wrappers
  import opened ProductStore

  /**
   * `user.products.all().order_by('-created_at')`: the user's rows, newest
   * first. Rows are appended in creation order, so this is the user's rows
   * read from the end of the table.
   */
  function UserProducts(products: seq<Product>, user: nat): seq<Product>
  {
    if products == [] then []
    else
      var last := products[|products| - 1];
      (if last.owner == user then [last] else []) + UserProducts(products[..|products| - 1], user)
  }

  /** The user's products are exactly the rows the user owns. */
  lemma {:induction false} UserProductsMembers(products: seq<Product>, user: nat)
    ensures forall p :: p in UserProducts(products, user) <==> p in products && p.owner == user
    decreases |products|
  {
    if products != [] {
      var init := products[..|products| - 1];
      UserProductsMembers(init, user);
      assert products == init + [products[|products| - 1]];
    }
  }

  /** What a product contributes to a sum: its quantity, or its price times its quantity. */
  datatype Measure = Quantity | Spent

  function Weight(p: Product, m: Measure): int
  {
    match m
    case Quantity => p.quantity
    case Spent => p.price * p.quantity
  }

  /** `sum(product.quantity ...)` and `sum(product.price * product.quantity ...)`. */
  function Total(ps: seq<Product>, m: Measure): int
  {
    if ps == [] then 0 else Total(ps[..|ps| - 1], m) + Weight(ps[|ps| - 1], m)
  }

  /** The total quantity is never negative. */
  lemma {:induction false} TotalQuantityNonNegative(ps: seq<Product>)
    ensures Total(ps, Quantity) >= 0
    decreases |ps|
  {
    if ps != [] {
      TotalQuantityNonNegative(ps[..|ps| - 1]);
    }
  }

  /** The categories of `ps` in order of first appearance: the key order of `category_stats`. */
  function Categories(ps: seq<Product>): seq<string>
  {
    if ps == [] then []
    else
      var init := Categories(ps[..|ps| - 1]);
      var c := ps[|ps| - 1].category;
      if c in init then init else init + [c]
  }

  /** The sum of `m` over the products of category `c`. */
  function CategoryTotal(ps: seq<Product>, c: string, m: Measure): int
  {
    if ps == [] then 0
    else CategoryTotal(ps[..|ps| - 1], c, m) + if ps[|ps| - 1].category == c then Weight(ps[|ps| - 1], m) else 0
  }

  /** The sum of the category totals over `cats`. */
  function SumOver(ps: seq<Product>, cats: seq<string>, m: Measure): int
  {
    if cats == [] then 0 else SumOver(ps, cats[..|cats| - 1], m) + CategoryTotal(ps, cats[|cats| - 1], m)
  }

  predicate Distinct(cats: seq<string>)
  {
    forall i, j :: 0 <= i < j < |cats| ==> cats[i] != cats[j]
  }

  /** Every category listed once, and a category is listed exactly when some product has it. */
  lemma {:induction false} CategoriesFacts(ps: seq<Product>)
    ensures Distinct(Categories(ps))
    ensures forall c :: c in Categories(ps) <==> exists k :: 0 <= k < |ps| && ps[k].category == c
    ensures Categories(ps) == [] <==> ps == []
    decreases |ps|
  {
    if ps != [] {
      var init := ps[..|ps| - 1];
      CategoriesFacts(init);
      forall c ensures c in Categories(ps) <==> exists k :: 0 <= k < |ps| && ps[k].category == c {
        if c in Categories(ps) && c != ps[|ps| - 1].category {
          var k :| 0 <= k < |init| && init[k].category == c;
          assert ps[k].category == c;
        }
        if exists k :: 0 <= k < |ps| && ps[k].category == c {
          var k :| 0 <= k < |ps| && ps[k].category == c;
          if k < |init| {
            assert init[k].category == c;
          }
        }
      }
    }
  }

  /** No category is listed twice. */
  lemma CategoriesDistinct(ps: seq<Product>)
    ensures Distinct(Categories(ps))
  {
    CategoriesFacts(ps);
  }

  /** A category no product has totals zero. */
  lemma {:induction false} AbsentCategoryTotal(ps: seq<Product>, c: string, m: Measure)
    requires c !in Categories(ps)
    ensures CategoryTotal(ps, c, m) == 0
    decreases |ps|
  {
    if ps != [] {
      var init := ps[..|ps| - 1];
      assert c !in Categories(init);
      AbsentCategoryTotal(init, c, m);
    }
  }

  /** One more product adds its weight to the sum over distinct categories exactly when its category is among them. */
  lemma {:induction false} SumOverSnoc(ps: seq<Product>, p: Product, cats: seq<string>, m: Measure)
    requires Distinct(cats)
    ensures SumOver(ps + [p], cats, m) == SumOver(ps, cats, m) + if p.category in cats then Weight(p, m) else 0
    decreases |cats|
  {
    assert (ps + [p])[..|ps|] == ps;
    if cats != [] {
      var init := cats[..|cats| - 1];
      var x := cats[|cats| - 1];
      assert Distinct(init);
      SumOverSnoc(ps, p, init, m);
      assert cats == init + [x];
      assert x !in init;
    }
  }

  /**
   * The per-category counts add up to the total quantity, and the
   * per-category amounts to the total spend.
   */
  lemma {:induction false} CategoryTotalsSum(ps: seq<Product>, m: Measure)
    ensures SumOver(ps, Categories(ps), m) == Total(ps, m)
    decreases |ps|
  {
    if ps != [] {
      var init := ps[..|ps| - 1];
      var p := ps[|ps| - 1];
      var cats := Categories(init);
      CategoryTotalsSum(init, m);
      CategoriesDistinct(init);
      assert ps == init + [p];
      SumOverSnoc(init, p, cats, m);
      if p.category !in cats {
        AbsentCategoryTotal(init, p.category, m);
        assert Categories(ps) == cats + [p.category];
        assert (cats + [p.category])[..|cats|] == cats;
      }
    }
  }

  /** One entry of `category_stats`. */
  datatype CategoryEntry = CategoryEntry(count: int, amount: int)

  /**
   * The statistics loop: builds `category_stats` (a map with its insertion
   * order) by adding each product's quantity and amount to its category's
   * entry, creating the entry on the category's first product.
   */
  method CategoryStats(ps: seq<Product>) returns (stats: map<string, CategoryEntry>, order: seq<string>)
    ensures order == Categories(ps)
    ensures forall c :: c in stats <==> c in order
    ensures forall c :: c in stats ==>
              stats[c] == CategoryEntry(CategoryTotal(ps, c, Quantity), CategoryTotal(ps, c, Spent))
  {
    stats := map[];
    order := [];
    var i := 0;
    while i < |ps|
      invariant 0 <= i <= |ps|
      invariant order == Categories(ps[..i])
      invariant forall c :: c in stats <==> c in order
      invariant forall c :: c in stats ==>
                  stats[c] == CategoryEntry(CategoryTotal(ps[..i], c, Quantity), CategoryTotal(ps[..i], c, Spent))
    {
      var p := ps[i];
      assert ps[..i + 1][..i] == ps[..i];
      if p.category in stats {
        var e := stats[p.category];
        stats := stats[p.category := CategoryEntry(e.count + p.quantity, e.amount + p.price * p.quantity)];
      } else {
        AbsentCategoryTotal(ps[..i], p.category, Quantity);
        AbsentCategoryTotal(ps[..i], p.category, Spent);
        stats := stats[p.category := CategoryEntry(p.quantity, p.price * p.quantity)];
        order := order + [p.category];
      }
      i := i + 1;
    }
    assert ps[..|ps|] == ps;
  }

  /**
   * Python's `max(items, key=count)` as it runs: the running best is replaced
   * only by a strictly larger count, so the first of several maxima wins.
   */
  function MaxFrom(best: string, rest: seq<string>, stats: map<string, CategoryEntry>): (r: string)
    requires best in stats && forall i :: 0 <= i < |rest| ==> rest[i] in stats
    ensures r == best || r in rest
    ensures r in stats && stats[best].count <= stats[r].count
    ensures forall i :: 0 <= i < |rest| ==> stats[rest[i]].count <= stats[r].count
    ensures stats[r].count == stats[best].count ==> r == best
    decreases |rest|
  {
    if rest == [] then best
    else MaxFrom(if stats[rest[0]].count > stats[best].count then rest[0] else best, rest[1..], stats)
  }

  /**
   * The running maximum is the starting key, or the first key of `rest`
   * whose count beats it and every key before it in `rest`.
   */
  lemma {:induction false} MaxFromFirst(best: string, rest: seq<string>, stats: map<string, CategoryEntry>)
    requires best in stats && forall i :: 0 <= i < |rest| ==> rest[i] in stats
    ensures var r := MaxFrom(best, rest, stats);
            r == best ||
            exists j :: 0 <= j < |rest| && rest[j] == r && stats[best].count < stats[r].count &&
                        forall i :: 0 <= i < j ==> stats[rest[i]].count < stats[r].count
    decreases |rest|
  {
    if rest != [] {
      var next := if stats[rest[0]].count > stats[best].count then rest[0] else best;
      var r := MaxFrom(best, rest, stats);
      MaxFromFirst(next, rest[1..], stats);
      if r != best {
        if r == next {
          assert rest[0] == r;
        } else {
          var j :| 0 <= j < |rest[1..]| && rest[1..][j] == r && stats[next].count < stats[r].count &&
                   forall i :: 0 <= i < j ==> stats[rest[1..][i]].count < stats[r].count;
          assert rest[j + 1] == r;
          forall i | 0 <= i < j + 1 ensures stats[rest[i]].count < stats[r].count {
            if i > 0 {
              assert rest[i] == rest[1..][i - 1];
            }
          }
        }
      }
    }
  }

  /**
   * `most_purchased_category`: None exactly when there are no categories;
   * otherwise a listed category whose count is at least every other's, and
   * the first listed one whose count is the largest.
   */
  function MostPurchased(order: seq<string>, stats: map<string, CategoryEntry>): (r: Option<string>)
    requires forall i :: 0 <= i < |order| ==> order[i] in stats
    ensures r.None? <==> order == []
    ensures r.Some? ==> r.value in order && forall i :: 0 <= i < |order| ==> stats[order[i]].count <= stats[r.value].count
    ensures r.Some? && stats[order[0]].count == stats[r.value].count ==> r.value == order[0]
    ensures r.Some? ==> exists j :: 0 <= j < |order| && order[j] == r.value &&
                                    forall i :: 0 <= i < j ==> stats[order[i]].count < stats[r.value].count
  {
    if order == [] then None
    else
      var r := MaxFrom(order[0], order[1..], stats);
      MaxFromFirst(order[0], order[1..], stats);
      if r == order[0] then Some(r)
      else
        var j :| 0 <= j < |order[1..]| && order[1..][j] == r && stats[order[0]].count < stats[r].count &&
                 forall i :: 0 <= i < j ==> stats[order[1..][i]].count < stats[r].count;
        assert order[j + 1] == r;
        assert forall i :: 0 <= i < j + 1 ==> stats[order[i]].count < stats[r].count by {
          forall i | 0 <= i < j + 1 ensures stats[order[i]].count < stats[r].count {
            if i > 0 {
              assert order[i] == order[1..][i - 1];
            }
          }
        }
        Some(r)
  }

  /** `total_spent / total_quantity if total_quantity > 0 else 0`, as an exact quotient. */
  function AveragePrice(totalSpent: int, totalQuantity: int): (r: real)
    ensures totalQuantity <= 0 ==> r == 0.0
    ensures totalQuantity > 0 ==> r * totalQuantity as real == totalSpent as real
  {
    if totalQuantity > 0 then totalSpent as real / totalQuantity as real else 0.0
  }

  /** With every price between `lo` and `hi`, the spend lies between `lo` and `hi` times the quantity. */
  lemma {:induction false} SpentBetween(ps: seq<Product>, lo: int, hi: int)
    requires forall k :: 0 <= k < |ps| ==> lo <= ps[k].price <= hi
    ensures lo * Total(ps, Quantity) <= Total(ps, Spent) <= hi * Total(ps, Quantity)
    decreases |ps|
  {
    if ps != [] {
      var init := ps[..|ps| - 1];
      var p := ps[|ps| - 1];
      SpentBetween(init, lo, hi);
      assert lo * p.quantity <= p.price * p.quantity <= hi * p.quantity by {
        assert (p.price - lo) * p.quantity >= 0;
        assert (hi - p.price) * p.quantity >= 0;
      }
      assert lo * Total(ps, Quantity) == lo * Total(init, Quantity) + lo * p.quantity;
      assert hi * Total(ps, Quantity) == hi * Total(init, Quantity) + hi * p.quantity;
    }
  }

  lemma QuotientBetween(a: int, b: int, lo: int, hi: int)
    requires b > 0 && lo * b <= a <= hi * b
    ensures lo as real <= a as real / b as real <= hi as real
  {
    var q := a as real / b as real;
    assert q * b as real == a as real;
    assert (lo * b) as real == lo as real * b as real;
    assert (hi * b) as real == hi as real * b as real;
    assert (q - lo as real) * b as real >= 0.0;
    assert (hi as real - q) * b as real >= 0.0;
  }

  /** The average price lies between the lowest and the highest price of the products bought. */
  lemma AverageBetween(ps: seq<Product>, lo: int, hi: int)
    requires forall k :: 0 <= k < |ps| ==> lo <= ps[k].price <= hi
    requires Total(ps, Quantity) > 0
    ensures lo as real <= AveragePrice(Total(ps, Spent), Total(ps, Quantity)) <= hi as real
  {
    SpentBetween(ps, lo, hi);
    QuotientBetween(Total(ps, Spent), Total(ps, Quantity), lo, hi);
  }

  /** What the profile page shows besides the user. */
  datatype Statistics = Statistics(
    userProducts: seq<Product>, totalProducts: nat, totalQuantity: int, totalSpent: int,
    categoryStats: map<string, CategoryEntry>, categoryOrder: seq<string>,
    mostPurchasedCategory: Option<string>, averagePrice: real)

  /** The statistics block of `profile_view` for `user`. */
  method ComputeStatistics(products: seq<Product>, user: nat) returns (s: Statistics)
    ensures s.userProducts == UserProducts(products, user) && s.totalProducts == |s.userProducts|
    ensures s.totalQuantity == Total(s.userProducts, Quantity) && s.totalSpent == Total(s.userProducts, Spent)
    ensures s.totalQuantity >= 0
    ensures s.categoryOrder == Categories(s.userProducts)
    ensures forall c :: c in s.categoryStats <==> c in s.categoryOrder
    ensures forall c :: c in s.categoryStats ==>
              s.categoryStats[c] == CategoryEntry(CategoryTotal(s.userProducts, c, Quantity),
                                                  CategoryTotal(s.userProducts, c, Spent))
    ensures s.mostPurchasedCategory.None? <==> s.userProducts == []
    ensures s.mostPurchasedCategory == MostPurchased(s.categoryOrder, s.categoryStats)
    ensures s.averagePrice == AveragePrice(s.totalSpent, s.totalQuantity)
    ensures s.totalQuantity == 0 ==> s.averagePrice == 0.0
  {
    var ps := UserProducts(products, user);
    var totalQuantity := Total(ps, Quantity);
    TotalQuantityNonNegative(ps);
    var totalSpent := Total(ps, Spent);
    var stats, order := CategoryStats(ps);
    CategoriesFacts(ps);
    var most := MostPurchased(order, stats);
    s := Statistics(ps, |ps|, totalQuantity, totalSpent, stats, order, most, AveragePrice(totalSpent, totalQuantity));
  }
}
