/** The admin area (routes/adminRoutes.js): the passcode login that sets the session's admin
    flag, its logout, and adding and deleting products, which require the flag. The
    configured passcode is an input (None when it is not set). */
module Admin {
  import opened Collections
  import opened Models
  import opened Ledger

  datatype AdminLoginOutcome = PasscodeRequired | InvalidPasscode | AdminAuthenticated

  /** `POST /admin-login`. An empty passcode fails validation; an unset configured passcode
      matches nothing. No user sign-in is needed. */
  function AdminLogin(s: State, passcode: string, configured: Option<string>): (r: (AdminLoginOutcome, State))
    ensures passcode == "" ==> r == (PasscodeRequired, s)
    ensures r.0.AdminAuthenticated? <==> passcode != "" && configured == Some(passcode)
    ensures r.0.AdminAuthenticated? ==> r.1 == s.(session := s.session.(isAdmin := true))
    ensures !r.0.AdminAuthenticated? ==> r.1 == s
    ensures passcode != "" && configured != Some(passcode) ==> r.0 == InvalidPasscode
  {
    if passcode == "" then (PasscodeRequired, s)
    else if configured == Some(passcode) then (AdminAuthenticated, s.(session := s.session.(isAdmin := true)))
    else (InvalidPasscode, s)
  }

  /** `POST /admin-logout`: clears the admin flag and nothing else; the signed-in user stays. */
  function AdminLogout(s: State): (r: State)
    ensures !r.session.isAdmin && r.session.user == s.session.user
    ensures r.users == s.users && r.products == s.products && r.transactions == s.transactions && r.orders == s.orders
  {
    s.(session := s.session.(isAdmin := false))
  }

  datatype AddOutcome = AddAdminRequired | InvalidProduct | AddFailed | ProductAdded

  /** The four fields the form validators require to be non-empty. */
  predicate ProductFieldsValid(name: string, secretInfo: string, country: string, platform: string) {
    name != "" && secretInfo != "" && country != "" && platform != ""
  }

  /** `Number(price || 0)`: an absent or empty price field is 0; a field that is no number is
      NaN, which the Number path of the schema refuses to store. */
  function PriceOf(price: Option<Numeric>): (r: Option<real>)
    ensures price.None? ==> r == Some(0.0)
    ensures price.Some? && price.value.Num? ==> r == Some(price.value.value)
    ensures price.Some? && price.value.NaN? ==> r.None?
  {
    match price
    case None => Some(0.0)
    case Some(NaN) => None
    case Some(Num(v)) => Some(v)
  }

  /** `POST /admin/products`. `newId` is the id the new document receives (one already taken
      fails like the create itself failing), `now` its creation time. */
  function AddProduct(s: State, name: string, imageUrl: string, description: string, secretInfo: string,
                      country: string, platform: string, price: Option<Numeric>, newId: ProductId, now: int)
    : (r: (AddOutcome, State))
    ensures !s.session.isAdmin ==> r == (AddAdminRequired, s)
    ensures s.session.isAdmin && !ProductFieldsValid(name, secretInfo, country, platform) ==> r == (InvalidProduct, s)
    ensures r.0.ProductAdded? <==>
              && s.session.isAdmin && ProductFieldsValid(name, secretInfo, country, platform)
              && PriceOf(price).Some? && ProductIndex(s.products, newId).None?
    ensures r.0.ProductAdded? ==>
              r.1 == s.(products := s.products + [NewProduct(newId, name, description, PriceOf(price).value, imageUrl,
                                                             country, platform, secretInfo, now)])
    ensures !r.0.ProductAdded? ==> r.1 == s
    ensures s.session.isAdmin && ProductFieldsValid(name, secretInfo, country, platform)
            && (PriceOf(price).None? || ProductIndex(s.products, newId).Some?) ==>
              r == (AddFailed, s)
  {
    if !s.session.isAdmin then (AddAdminRequired, s)
    else if !ProductFieldsValid(name, secretInfo, country, platform) then (InvalidProduct, s)
    else match PriceOf(price)
      case None => (AddFailed, s)
      case Some(amount) =>
        if ProductIndex(s.products, newId).Some? then (AddFailed, s)
        else (ProductAdded, s.(products := s.products + [NewProduct(newId, name, description, amount, imageUrl,
                                                                    country, platform, secretInfo, now)]))
  }

  /** An added product is on sale: unsold, with no buyer, and the one its id finds. */
  lemma AddedProductOnSale(s: State, name: string, imageUrl: string, description: string, secretInfo: string,
                           country: string, platform: string, price: Option<Numeric>, newId: ProductId, now: int)
    requires AddProduct(s, name, imageUrl, description, secretInfo, country, platform, price, newId, now).0.ProductAdded?
    ensures var s1 := AddProduct(s, name, imageUrl, description, secretInfo, country, platform, price, newId, now).1;
            var pi := ProductIndex(s1.products, newId);
            && pi == Some(|s.products|)
            && !s1.products[pi.value].isSold && s1.products[pi.value].buyer.None?
            && s1.products[pi.value].secretInfo == secretInfo
  {
    var s1 := AddProduct(s, name, imageUrl, description, secretInfo, country, platform, price, newId, now).1;
    assert s1.products[|s.products|].id == newId;
  }

  /** Adding a product keeps the invariant. */
  lemma AddProductKeepsValid(s: State, name: string, imageUrl: string, description: string, secretInfo: string,
                             country: string, platform: string, price: Option<Numeric>, newId: ProductId, now: int)
    requires Valid(s)
    ensures Valid(AddProduct(s, name, imageUrl, description, secretInfo, country, platform, price, newId, now).1)
  {
  }

  datatype DeleteOutcome = DeleteAdminRequired | Deleted

  /** The table without the first product with the given id (all of it when none has it). */
  function RemoveProduct(products: seq<Product>, id: ProductId): (r: seq<Product>)
    ensures ProductIndex(products, id).None? ==> r == products
    ensures ProductIndex(products, id).Some? ==>
              var i := ProductIndex(products, id).value;
              r == products[..i] + products[i + 1..]
  {
    match ProductIndex(products, id)
    case None => products
    case Some(i) => products[..i] + products[i + 1..]
  }

  /** `POST /admin/products/:id/delete`: findByIdAndDelete; deleting an id no product has is
      not an error. */
  function DeleteProduct(s: State, id: ProductId): (r: (DeleteOutcome, State))
    ensures !s.session.isAdmin ==> r == (DeleteAdminRequired, s)
    ensures s.session.isAdmin ==> r == (Deleted, s.(products := RemoveProduct(s.products, id)))
  {
    if !s.session.isAdmin then (DeleteAdminRequired, s)
    else (Deleted, s.(products := RemoveProduct(s.products, id)))
  }

  /** Under the invariant a deleted product is gone, and every other product is kept. */
  lemma DeleteRemoves(s: State, id: ProductId)
    requires Valid(s) && s.session.isAdmin
    ensures var s1 := DeleteProduct(s, id).1;
            && ProductIndex(s1.products, id).None?
            && (forall p :: p in s.products && p.id != id ==> p in s1.products)
            && (forall p :: p in s1.products ==> p in s.products)
            && |s1.products| == |s.products| - (if ProductIndex(s.products, id).Some? then 1 else 0)
  {
    var s1 := DeleteProduct(s, id).1;
    match ProductIndex(s.products, id)
    case None =>
    case Some(i) =>
      assert s1.products == s.products[..i] + s.products[i + 1..];
      forall j | 0 <= j < |s1.products|
        ensures s1.products[j].id != id
      {
        if j < i {
          assert s1.products[j] == s.products[j];
        } else {
          assert s1.products[j] == s.products[j + 1];
        }
      }
      forall p | p in s.products && p.id != id
        ensures p in s1.products
      {
        var k :| 0 <= k < |s.products| && s.products[k] == p;
        if k < i {
          assert s1.products[k] == p;
        } else {
          assert k != i;
          assert s1.products[k - 1] == p;
        }
      }
  }

  /** Removing one product keeps the product invariant. */
  lemma RemoveAtKeepsValid(products: seq<Product>, i: nat)
    requires ProductsValid(products) && i < |products|
    ensures ProductsValid(products[..i] + products[i + 1..])
  {
    var r := products[..i] + products[i + 1..];
    assert forall j :: 0 <= j < |r| ==> r[j] == products[if j < i then j else j + 1];
  }

  /** Deleting keeps the invariant. */
  lemma DeleteKeepsValid(s: State, id: ProductId)
    requires Valid(s)
    ensures Valid(DeleteProduct(s, id).1)
  {
    if s.session.isAdmin && ProductIndex(s.products, id).Some? {
      RemoveAtKeepsValid(s.products, ProductIndex(s.products, id).value);
    }
  }
}
