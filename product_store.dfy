/**
 * The add-to-collection endpoint: a JSON body describing a catalogue item is
 * turned into a product row owned by the requesting user, unless that user
 * already holds a product with the same title. The product table is an
 * in-memory sequence of rows; prices are integer hundredths and ratings
 * integer tenths, the two decimal places and one decimal place of the columns.
 */
module ProductStore {
  import opened Wrappers

  /** A row of the product table. */
  datatype Product = Product(
    id: nat, owner: nat, title: string, price: int, description: string,
    category: string, imageUrl: string, rate: int, count: int, quantity: nat)

  /**
   * A key of a JSON object as `dict.get(key, default)` sees it: missing (the
   * default is used), sent as `null` (the result is `None`), or a value.
   */
  datatype Entry<T> = Missing | Null | Given(value: T)

  /** The `rating` object of the body, with each of its keys as it was sent. */
  datatype Rating = Rating(rate: Entry<int>, count: Entry<int>)

  /**
   * A request body that parsed as a JSON object: each key the view reads.
   * For the keys read with `data.get(key)` (no default) a missing key and a
   * `null` both give `None`, so they are one case here; `rating` and its two
   * keys are read with defaults, so there the two are told apart.
   */
  datatype Payload = Payload(
    title: Option<string>, price: Option<int>, description: Option<string>,
    category: Option<string>, image: Option<string>, rating: Entry<Rating>)

  /** The JSON the endpoint answers with, or the login redirect of `@login_required`. */
  datatype Reply =
    | LoginRedirect
    | JsonReply(status: string, message: string, productId: Option<nat>)

  const InvalidMethod := JsonReply("error", "Invalid request method", None)
  const AlreadyAdded := JsonReply("error", "Product already added to your collection", None)
  const AddFailed := JsonReply("error", "Failed to add product", None)

  /** The widest values the `price` (10 digits, 2 decimals) and `rate` (3 digits, 1 decimal) columns hold. */
  const PriceLimit := 10_000_000_000
  const RateLimit := 1_000

  /**
   * `data.get('rating', {}).get('rate', 0)`: 0 when `rating` or its `rate`
   * is missing; `None` when either is `null` (`.get` on `None` raises, and a
   * `None` rate cannot go into its NOT NULL column).
   */
  function RateOf(p: Payload): (r: Option<int>)
    ensures r.None? <==> p.rating.Null? || (p.rating.Given? && p.rating.value.rate.Null?)
    ensures p.rating.Missing? || (p.rating.Given? && p.rating.value.rate.Missing?) ==> r == Some(0)
    ensures p.rating.Given? && p.rating.value.rate.Given? ==> r == Some(p.rating.value.rate.value)
  {
    match p.rating
    case Missing => Some(0)
    case Null => None
    case Given(rating) =>
      match rating.rate
      case Missing => Some(0)
      case Null => None
      case Given(rate) => Some(rate)
  }

  /** `data.get('rating', {}).get('count', 0)`, with the same cases as the rate. */
  function CountOf(p: Payload): (r: Option<int>)
    ensures r.None? <==> p.rating.Null? || (p.rating.Given? && p.rating.value.count.Null?)
    ensures p.rating.Missing? || (p.rating.Given? && p.rating.value.count.Missing?) ==> r == Some(0)
    ensures p.rating.Given? && p.rating.value.count.Given? ==> r == Some(p.rating.value.count.value)
  {
    match p.rating
    case Missing => Some(0)
    case Null => None
    case Given(rating) =>
      match rating.count
      case Missing => Some(0)
      case Null => None
      case Given(count) => Some(count)
  }

  /**
   * `Product.objects.create(...)` succeeds: no NOT NULL column gets `None`,
   * the decimals fit their columns and `count` is not negative.
   */
  predicate Storable(p: Payload)
    ensures Storable(p) ==> p.rating.Missing? || (p.rating.Given? && !p.rating.value.rate.Null? && !p.rating.value.count.Null?)
  {
    p.title.Some? && p.price.Some? && p.description.Some? && p.category.Some? && p.image.Some? &&
    -PriceLimit < p.price.value < PriceLimit &&
    RateOf(p).Some? && -RateLimit < RateOf(p).value < RateLimit &&
    CountOf(p).Some? && CountOf(p).value >= 0
  }

  /** The row `create` inserts for `p`, owned by `owner`, with the default quantity of one. */
  function NewProduct(id: nat, owner: nat, p: Payload): (r: Product)
    requires Storable(p)
    ensures r.owner == owner && r.title == p.title.value && r.quantity == 1
  {
    Product(id, owner, p.title.value, p.price.value, p.description.value, p.category.value,
            p.image.value, RateOf(p).value, CountOf(p).value, 1)
  }

  /** A body without `rating`, or whose rating lacks `rate` and `count`, stores a rate and count of zero. */
  lemma MissingRatingDefaults(id: nat, owner: nat, p: Payload)
    requires Storable(p)
    requires p.rating.Missing? || (p.rating.Given? && p.rating.value.rate.Missing? && p.rating.value.count.Missing?)
    ensures NewProduct(id, owner, p).rate == 0 && NewProduct(id, owner, p).count == 0
  {
  }

  /** `Product.objects.filter(user=owner, title=title).first()` finds a row. */
  predicate Held(products: seq<Product>, owner: nat, title: string)
  {
    exists i :: 0 <= i < |products| && products[i].owner == owner && products[i].title == title
  }

  /** The lookup with `title=None` (`IS NULL`) finds nothing, since every title is stored. */
  predicate HeldTitle(products: seq<Product>, owner: nat, title: Option<string>)
  {
    title.Some? && Held(products, owner, title.value)
  }

  /** Ids are distinct and below `nextId`, and no user holds two products with the same title. */
  ghost predicate WellFormed(products: seq<Product>, nextId: nat)
  {
    (forall i :: 0 <= i < |products| ==> products[i].id < nextId) &&
    (forall i, j :: 0 <= i < j < |products| ==>
       products[i].id != products[j].id &&
       (products[i].owner == products[j].owner ==> products[i].title != products[j].title))
  }

  /** Appending a product whose title its owner does not hold yet keeps the table well formed. */
  lemma AppendKeepsWellFormed(products: seq<Product>, nextId: nat, p: Product)
    requires WellFormed(products, nextId) && p.id == nextId && !Held(products, p.owner, p.title)
    ensures WellFormed(products + [p], nextId + 1)
  {
    var s := products + [p];
    forall i, j | 0 <= i < j < |s|
      ensures s[i].id != s[j].id && (s[i].owner == s[j].owner ==> s[i].title != s[j].title)
    {
      if j == |products| {
        assert s[i] == products[i];
      }
    }
  }

  class ProductTable {
    var products: seq<Product>
    var nextId: nat

    ghost predicate Valid()
      reads this
    {
      WellFormed(products, nextId)
    }

    constructor ()
      ensures Valid() && products == [] && nextId == 0
    {
      products := [];
      nextId := 0;
    }

    /**
     * `add_product`. `user` is the requesting user (None when not logged in),
     * `body` the parsed request body (None when it is not JSON, not an object,
     * or a value has the wrong type). Every branch but the last leaves the
     * table as it was; the last appends exactly one row.
     */
    method AddProduct(user: Option<nat>, isPost: bool, body: Option<Payload>) returns (reply: Reply)
      requires Valid()
      modifies this
      ensures Valid()
      ensures nextId == if user.Some? && isPost && body.Some? && !HeldTitle(old(products), user.value, body.value.title) &&
                           Storable(body.value) then old(nextId) + 1 else old(nextId)
      ensures user.None? ==> reply == LoginRedirect && products == old(products)
      ensures user.Some? && !isPost ==> reply == InvalidMethod && products == old(products)
      ensures user.Some? && isPost && body.None? ==> reply == AddFailed && products == old(products)
      ensures user.Some? && isPost && body.Some? && HeldTitle(old(products), user.value, body.value.title) ==>
                reply == AlreadyAdded && products == old(products)
      ensures user.Some? && isPost && body.Some? && !HeldTitle(old(products), user.value, body.value.title) &&
              !Storable(body.value) ==>
                reply == AddFailed && products == old(products)
      ensures user.Some? && isPost && body.Some? && !HeldTitle(old(products), user.value, body.value.title) &&
              Storable(body.value) ==>
                reply == JsonReply("success", "Product added successfully!", Some(old(nextId))) &&
                products == old(products) + [NewProduct(old(nextId), user.value, body.value)]
    {
      if user.None? {
        return LoginRedirect;
      }
      if !isPost {
        return InvalidMethod;
      }
      if body.None? {
        return AddFailed;
      }
      var data := body.value;
      if data.title.Some? && Held(products, user.value, data.title.value) {
        return AlreadyAdded;
      }
      if !Storable(data) {
        return AddFailed;
      }
      var product := NewProduct(nextId, user.value, data);
      AppendKeepsWellFormed(products, nextId, product);
      products := products + [product];
      nextId := nextId + 1;
      reply := JsonReply("success", "Product added successfully!", Some(product.id));
    }
  }

  /** Two different users may each add a product with the same title. */
  method SameTitleForTwoUsers(p: Payload) returns (first: Reply, second: Reply)
    requires Storable(p)
    ensures first.JsonReply? && first.status == "success"
    ensures second.JsonReply? && second.status == "success"
  {
    var table := new ProductTable();
    first := table.AddProduct(Some(1), true, Some(p));
    second := table.AddProduct(Some(2), true, Some(p));
  }

  /** The same user adding the same title twice is refused the second time, and the table keeps one row. */
  method SameTitleTwiceForOneUser(p: Payload) returns (first: Reply, second: Reply, rows: nat)
    requires Storable(p)
    ensures first.JsonReply? && first.status == "success"
    ensures second == AlreadyAdded
    ensures rows == 1
  {
    var table := new ProductTable();
    first := table.AddProduct(Some(7), true, Some(p));
    assert table.products[0].owner == 7 && table.products[0].title == p.title.value;
    second := table.AddProduct(Some(7), true, Some(p));
    rows := |table.products|;
  }
}
