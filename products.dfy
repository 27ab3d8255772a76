/** The product store (src/context/ProductContext.tsx): sellers submit
    products, technicians verify them, and the listings filter the list by
    the logged-in user's role.

    As for negotiations, each operation is a function from the old list to
    the new one or an error, and a method of `ProductStore` that updates
    the list in place. */
module Products {
  import opened Wrappers
  import opened Types
  import Seqs
  import Decimal

  datatype ProductError =
    | NotLoggedIn        // "You must be logged in to add a product"
    | OnlyTechnicians    // "Only technicians can verify products"

  /** The list the store loads at start-up. */
  const MockProducts: seq<Product> := [
    Product(
      "p1", "iPhone 12 Pro", "Excellent condition, 128GB, Pacific Blue",
      700, Some(650), Some("Minor scratches on back, battery health 92%"),
      "s1", "John Seller", Some("+1234567890"), Some("+1555123456"),
      Some("123 Apple St, Cupertino, CA"), Verified,
      Images(Some("https://placehold.co/400x300?text=iPhone+12+Pro+Sample"),
             Some(["https://placehold.co/400x300?text=iPhone+Front",
                   "https://placehold.co/400x300?text=iPhone+Back"])),
      "2023-04-01T10:00:00Z", "2023-04-02T14:30:00Z"),
    Product(
      "p2", "MacBook Air M1", "Like new, 256GB SSD, 8GB RAM, Space Gray",
      800, None, None,
      "s1", "John Seller", Some("+1234567890"), None,
      Some("456 Mac Ave, Cupertino, CA"), Pending,
      Images(Some("https://placehold.co/400x300?text=MacBook+Sample"), None),
      "2023-04-05T15:20:00Z", "2023-04-05T15:20:00Z")
  ]

  /** What a seller submits: a product without id, status, seller name and
      phone, and timestamps. */
  datatype ProductDraft = ProductDraft(
    name: string,
    details: string,
    sellerPrice: int,
    technicianPrice: Option<int>,
    technicianDescription: Option<string>,
    sellerId: string,
    technicianPhone: Option<string>,
    address: Option<string>,
    images: Images)

  /** A `Partial<Product>`: each field supplied (`Some`) or not (`None`).
      An optional field may be supplied as `undefined`, which clears it,
      hence the nested `Option`. */
  datatype ProductPatch = ProductPatch(
    id: Option<string>,
    name: Option<string>,
    details: Option<string>,
    sellerPrice: Option<int>,
    technicianPrice: Option<Option<int>>,
    technicianDescription: Option<Option<string>>,
    sellerId: Option<string>,
    sellerName: Option<string>,
    sellerPhone: Option<Option<string>>,
    technicianPhone: Option<Option<string>>,
    address: Option<Option<string>>,
    status: Option<ProductStatus>,
    images: Option<Images>,
    createdAt: Option<string>,
    updatedAt: Option<string>)

  const NoChanges := ProductPatch(None, None, None, None, None, None, None, None,
                                  None, None, None, None, None, None, None)

  /** The id of the k-th product, `p${k}`. */
  function ProductId(k: nat): string {
    "p" + Decimal.NatToString(k)
  }

  // ------------------------------------------------------------------
  // Merge-update

  /** `{ ...product, ...updates, updatedAt: now }`. */
  function ApplyPatch(p: Product, u: ProductPatch, now: string): Product {
    Product(
      u.id.GetOr(p.id), u.name.GetOr(p.name), u.details.GetOr(p.details),
      u.sellerPrice.GetOr(p.sellerPrice), u.technicianPrice.GetOr(p.technicianPrice),
      u.technicianDescription.GetOr(p.technicianDescription), u.sellerId.GetOr(p.sellerId),
      u.sellerName.GetOr(p.sellerName), u.sellerPhone.GetOr(p.sellerPhone),
      u.technicianPhone.GetOr(p.technicianPhone), u.address.GetOr(p.address),
      u.status.GetOr(p.status), u.images.GetOr(p.images), u.createdAt.GetOr(p.createdAt),
      now)
  }

  /** `{ ...first, ...second }`: fields of the second patch win. */
  function MergePatches(first: ProductPatch, second: ProductPatch): ProductPatch {
    ProductPatch(
      if second.id.Some? then second.id else first.id,
      if second.name.Some? then second.name else first.name,
      if second.details.Some? then second.details else first.details,
      if second.sellerPrice.Some? then second.sellerPrice else first.sellerPrice,
      if second.technicianPrice.Some? then second.technicianPrice else first.technicianPrice,
      if second.technicianDescription.Some? then second.technicianDescription else first.technicianDescription,
      if second.sellerId.Some? then second.sellerId else first.sellerId,
      if second.sellerName.Some? then second.sellerName else first.sellerName,
      if second.sellerPhone.Some? then second.sellerPhone else first.sellerPhone,
      if second.technicianPhone.Some? then second.technicianPhone else first.technicianPhone,
      if second.address.Some? then second.address else first.address,
      if second.status.Some? then second.status else first.status,
      if second.images.Some? then second.images else first.images,
      if second.createdAt.Some? then second.createdAt else first.createdAt,
      if second.updatedAt.Some? then second.updatedAt else first.updatedAt)
  }

  /** A merge-update overrides exactly the supplied fields: each supplied
      field takes the patch's value, each other field keeps the product's,
      and `updatedAt` is always the update's time, whatever the patch says. */
  lemma ApplyPatchOverrides(p: Product, u: ProductPatch, now: string)
    ensures u.id.Some? ==> ApplyPatch(p, u, now).id == u.id.value
    ensures u.id.None? ==> ApplyPatch(p, u, now).id == p.id
    ensures u.name.Some? ==> ApplyPatch(p, u, now).name == u.name.value
    ensures u.name.None? ==> ApplyPatch(p, u, now).name == p.name
    ensures u.details.Some? ==> ApplyPatch(p, u, now).details == u.details.value
    ensures u.details.None? ==> ApplyPatch(p, u, now).details == p.details
    ensures u.sellerPrice.Some? ==> ApplyPatch(p, u, now).sellerPrice == u.sellerPrice.value
    ensures u.sellerPrice.None? ==> ApplyPatch(p, u, now).sellerPrice == p.sellerPrice
    ensures u.technicianPrice.Some? ==> ApplyPatch(p, u, now).technicianPrice == u.technicianPrice.value
    ensures u.technicianPrice.None? ==> ApplyPatch(p, u, now).technicianPrice == p.technicianPrice
    ensures u.technicianDescription.Some? ==> ApplyPatch(p, u, now).technicianDescription == u.technicianDescription.value
    ensures u.technicianDescription.None? ==> ApplyPatch(p, u, now).technicianDescription == p.technicianDescription
    ensures u.sellerId.Some? ==> ApplyPatch(p, u, now).sellerId == u.sellerId.value
    ensures u.sellerId.None? ==> ApplyPatch(p, u, now).sellerId == p.sellerId
    ensures u.sellerName.Some? ==> ApplyPatch(p, u, now).sellerName == u.sellerName.value
    ensures u.sellerName.None? ==> ApplyPatch(p, u, now).sellerName == p.sellerName
    ensures u.sellerPhone.Some? ==> ApplyPatch(p, u, now).sellerPhone == u.sellerPhone.value
    ensures u.sellerPhone.None? ==> ApplyPatch(p, u, now).sellerPhone == p.sellerPhone
    ensures u.technicianPhone.Some? ==> ApplyPatch(p, u, now).technicianPhone == u.technicianPhone.value
    ensures u.technicianPhone.None? ==> ApplyPatch(p, u, now).technicianPhone == p.technicianPhone
    ensures u.address.Some? ==> ApplyPatch(p, u, now).address == u.address.value
    ensures u.address.None? ==> ApplyPatch(p, u, now).address == p.address
    ensures u.status.Some? ==> ApplyPatch(p, u, now).status == u.status.value
    ensures u.status.None? ==> ApplyPatch(p, u, now).status == p.status
    ensures u.images.Some? ==> ApplyPatch(p, u, now).images == u.images.value
    ensures u.images.None? ==> ApplyPatch(p, u, now).images == p.images
    ensures u.createdAt.Some? ==> ApplyPatch(p, u, now).createdAt == u.createdAt.value
    ensures u.createdAt.None? ==> ApplyPatch(p, u, now).createdAt == p.createdAt
    ensures ApplyPatch(p, u, now).updatedAt == now
  {
  }

  /** Merge-updates compose: an empty patch changes only `updatedAt`,
      applying the same patch twice is applying it once, and two updates in
      a row are one update with the merged patch. */
  lemma ApplyPatchLaws(p: Product, u: ProductPatch, v: ProductPatch, t1: string, t2: string)
    ensures ApplyPatch(p, NoChanges, t1) == p.(updatedAt := t1)
    ensures ApplyPatch(ApplyPatch(p, u, t1), u, t1) == ApplyPatch(p, u, t1)
    ensures ApplyPatch(ApplyPatch(p, u, t1), v, t2) == ApplyPatch(p, MergePatches(u, v), t2)
  {
  }

  // ------------------------------------------------------------------
  // Lookups

  /** getUserProducts: a seller's own products, in list order; nothing for
      any other role or when nobody is logged in. */
  function UserProducts(products: seq<Product>, user: Option<User>): (r: seq<Product>)
    ensures |r| <= |products|
    ensures user.Some? && user.value.role == Seller ==>
      forall p :: p in r <==> p in products && p.sellerId == user.value.id
    ensures user.None? || user.value.role != Seller ==> r == []
  {
    match user
    case None => []
    case Some(u) =>
      if u.role == Seller then Seqs.Filter(products, (p: Product) => p.sellerId == u.id) else []
  }

  /** A seller's listing holds each of their products exactly as often as
      the product list does, and nothing else. */
  lemma UserProductsCounts(products: seq<Product>, viewer: User)
    requires viewer.role == Seller
    ensures forall p :: multiset(UserProducts(products, Some(viewer)))[p]
                        == if p.sellerId == viewer.id then multiset(products)[p] else 0
  {
    Seqs.FilterCounts(products, (p: Product) => p.sellerId == viewer.id);
  }

  /** getProductById: the first product with that id, if any. */
  function ProductById(products: seq<Product>, id: string): (r: Option<Product>)
    ensures r.Some? <==> exists i :: 0 <= i < |products| && products[i].id == id
    ensures r.Some? ==>
      exists i :: 0 <= i < |products| && products[i] == r.value && r.value.id == id
        && forall j :: 0 <= j < i ==> products[j].id != id
  {
    match Seqs.FirstIndex(products, (p: Product) => p.id == id)
    case None => None
    case Some(k) => Some(products[k])
  }

  predicate IsPending(p: Product) {
    p.status == Pending
  }

  /** getPendingVerifications: for a technician, the pending products in
      list order; nothing for anybody else. */
  function PendingVerifications(products: seq<Product>, user: Option<User>): (r: seq<Product>)
    ensures |r| <= |products|
    ensures user.Some? && user.value.role == Technician ==>
      forall p :: p in r <==> p in products && p.status == Pending
    ensures user.None? || user.value.role != Technician ==> r == []
  {
    if user.None? || user.value.role != Technician then []
    else Seqs.Filter(products, IsPending)
  }

  // ------------------------------------------------------------------
  // The operations, on values

  /** The product `addProduct` builds for user `u`. */
  function NewProduct(products: seq<Product>, u: User, d: ProductDraft, now: string): Product {
    Product(ProductId(|products| + 1), d.name, d.details, d.sellerPrice, d.technicianPrice,
            d.technicianDescription, d.sellerId, u.name, Some(u.phoneNumber.GetOr("")),
            d.technicianPhone, d.address, Pending, d.images, now, now)
  }

  /** addProduct: any logged-in user appends a pending product; the role is
      not checked. */
  function Add(products: seq<Product>, user: Option<User>, d: ProductDraft, now: string)
    : (r: Result<seq<Product>, ProductError>)
    ensures r.Err? <==> user.None?
    ensures r.Err? ==> r.error == NotLoggedIn
    ensures r.Ok? ==> |r.value| == |products| + 1 && r.value[..|products|] == products
    ensures r.Ok? ==>
      var p := r.value[|products|];
      && p.id == ProductId(|products| + 1) && p.status == Pending
      && p.sellerName == user.value.name
      && p.sellerPhone == Some(if user.value.phoneNumber.Some? then user.value.phoneNumber.value else "")
      && ProductDraft(p.name, p.details, p.sellerPrice, p.technicianPrice, p.technicianDescription,
                      p.sellerId, p.technicianPhone, p.address, p.images) == d
  {
    match user
    case None => Err(NotLoggedIn)
    case Some(u) =>
      var p := NewProduct(products, u, d, now);
      assert (products + [p])[..|products|] == products;
      Ok(products + [p])
  }

  /** updateProduct: merge the patch into every product with that id. No
      user is required and an unknown id changes nothing. */
  function Update(products: seq<Product>, productId: string, u: ProductPatch, now: string)
    : (r: seq<Product>)
    ensures |r| == |products|
    ensures forall i :: 0 <= i < |products| && products[i].id != productId ==> r[i] == products[i]
    ensures forall i :: 0 <= i < |products| && products[i].id == productId ==>
      r[i] == ApplyPatch(products[i], u, now)
    ensures (forall i :: 0 <= i < |products| ==> products[i].id != productId) ==> r == products
  {
    Seqs.ReplaceWhere(products, (p: Product) => p.id == productId, (p: Product) => ApplyPatch(p, u, now))
  }

  /** What `verifyProduct` writes into the target product. */
  function WithVerification(p: Product, description: string, price: int, images: seq<string>,
                            phone: string, now: string): Product {
    p.(status := Verified,
       technicianDescription := Some(description),
       technicianPrice := Some(price),
       technicianPhone := Some(phone),
       images := p.images.(technician := Some(images)),
       updatedAt := now)
  }

  /** verifyProduct: a technician marks every product with that id verified
      and records the findings; an unknown id is not an error. */
  function Verify(products: seq<Product>, user: Option<User>, productId: string, description: string,
                         price: int, images: seq<string>, phone: string, now: string)
    : (r: Result<seq<Product>, ProductError>)
    ensures r.Err? <==> user.None? || user.value.role != Technician
    ensures r.Err? ==> r.error == OnlyTechnicians
    ensures r.Ok? ==> |r.value| == |products|
    ensures r.Ok? ==> forall i :: 0 <= i < |products| && products[i].id != productId ==>
      r.value[i] == products[i]
    ensures r.Ok? ==> forall i :: 0 <= i < |products| && products[i].id == productId ==>
      var q := r.value[i];
      && q.status == Verified && q.technicianDescription == Some(description)
      && q.technicianPrice == Some(price) && q.technicianPhone == Some(phone)
      && q.images == Images(products[i].images.sample, Some(images))
      && q.id == products[i].id && q.sellerId == products[i].sellerId
      && q.sellerPrice == products[i].sellerPrice
    ensures r.Ok? ==> forall i :: 0 <= i < |products| && products[i].id == productId ==>
      r.value[i].(status := products[i].status,
                  technicianDescription := products[i].technicianDescription,
                  technicianPrice := products[i].technicianPrice,
                  technicianPhone := products[i].technicianPhone,
                  images := products[i].images,
                  updatedAt := products[i].updatedAt) == products[i]
  {
    if user.None? || user.value.role != Technician then Err(OnlyTechnicians)
    else Ok(Seqs.ReplaceWhere(products, (p: Product) => p.id == productId,
                              (p: Product) => WithVerification(p, description, price, images, phone, now)))
  }

  // ------------------------------------------------------------------
  // How the operations move products through the listings

  /** A submitted product joins the end of every technician's
      verification queue. */
  lemma AddedProductIsQueued(products: seq<Product>, user: Option<User>, d: ProductDraft, now: string, viewer: User)
    requires Add(products, user, d, now).Ok?
    requires viewer.role == Technician
    ensures var after := Add(products, user, d, now).value;
      PendingVerifications(after, Some(viewer)) == PendingVerifications(products, Some(viewer)) + [after[|products|]]
  {
    var after := Add(products, user, d, now).value;
    assert after == products + [after[|products|]];
    Seqs.FilterSnoc(products, after[|products|], IsPending);
  }

  /** A submitted product joins the end of its seller's listing and leaves
      every other seller's listing as it was. */
  lemma AddedProductIsListed(products: seq<Product>, user: Option<User>, d: ProductDraft, now: string, viewer: User)
    requires Add(products, user, d, now).Ok?
    requires viewer.role == Seller
    ensures var after := Add(products, user, d, now).value;
      UserProducts(after, Some(viewer))
        == UserProducts(products, Some(viewer)) + (if d.sellerId == viewer.id then [after[|products|]] else [])
  {
    var after := Add(products, user, d, now).value;
    assert after == products + [after[|products|]];
    Seqs.FilterSnoc(products, after[|products|], (q: Product) => q.sellerId == viewer.id);
  }

  /** With no other product holding `p${len+1}`, the new product is the one
      that id finds. */
  lemma AddedProductIsFound(products: seq<Product>, user: Option<User>, d: ProductDraft, now: string)
    requires Add(products, user, d, now).Ok?
    requires forall i :: 0 <= i < |products| ==> products[i].id != ProductId(|products| + 1)
    ensures var after := Add(products, user, d, now).value;
      ProductById(after, ProductId(|products| + 1)) == Some(after[|products|])
  {
  }

  /** After a successful verification the product is no longer pending for
      any technician, and every other pending product still is, in order. */
  lemma VerifyRemovesFromQueue(products: seq<Product>, user: Option<User>, productId: string, description: string,
                               price: int, images: seq<string>, phone: string, now: string, viewer: User)
    requires Verify(products, user, productId, description, price, images, phone, now).Ok?
    requires viewer.role == Technician
    ensures var after := Verify(products, user, productId, description, price, images, phone, now).value;
      PendingVerifications(after, Some(viewer))
        == Seqs.Filter(PendingVerifications(products, Some(viewer)), (p: Product) => p.id != productId)
  {
    var hit := (p: Product) => p.id == productId;
    var f := (p: Product) => WithVerification(p, description, price, images, phone, now);
    var other := (p: Product) => p.id != productId;
    Seqs.FilterReplaceWhere(products, hit, f, IsPending, other);
  }

  // ------------------------------------------------------------------
  // The store

  class ProductStore {
    var products: seq<Product>
    var loadingProducts: bool

    /** The provider's initial state, before the list is loaded. */
    constructor ()
      ensures products == [] && loadingProducts
    {
      products := [];
      loadingProducts := true;
    }

    /** The start-up effect: load the mock list. */
    method FinishLoading()
      modifies this
      ensures products == MockProducts && !loadingProducts
    {
      products := MockProducts;
      loadingProducts := false;
    }

    method AddProduct(user: Option<User>, d: ProductDraft, now: string) returns (r: Outcome<ProductError>)
      modifies this`products
      ensures Add(old(products), user, d, now).Err? ==>
        r == Fail(NotLoggedIn) && products == old(products)
      ensures Add(old(products), user, d, now).Ok? ==>
        r == Pass && products == Add(old(products), user, d, now).value
    {
      if user.None? {
        return Fail(NotLoggedIn);
      }
      products := products + [NewProduct(products, user.value, d, now)];
      r := Pass;
    }

    method UpdateProduct(productId: string, u: ProductPatch, now: string)
      modifies this`products
      ensures products == Update(old(products), productId, u, now)
    {
      products := Seqs.ReplaceWhere(products, (p: Product) => p.id == productId,
                                    (p: Product) => ApplyPatch(p, u, now));
    }

    method VerifyProduct(user: Option<User>, productId: string, description: string, price: int,
                         images: seq<string>, phone: string, now: string) returns (r: Outcome<ProductError>)
      modifies this`products
      ensures Verify(old(products), user, productId, description, price, images, phone, now).Err? ==>
        r == Fail(OnlyTechnicians) && products == old(products)
      ensures Verify(old(products), user, productId, description, price, images, phone, now).Ok? ==>
        r == Pass
        && products == Verify(old(products), user, productId, description, price, images, phone, now).value
    {
      if user.None? || user.value.role != Technician {
        return Fail(OnlyTechnicians);
      }
      products := Seqs.ReplaceWhere(products, (p: Product) => p.id == productId,
                                    (p: Product) => WithVerification(p, description, price, images, phone, now));
      r := Pass;
    }
  }
}
