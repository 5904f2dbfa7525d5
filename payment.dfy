/** The payment page and the mock "Pay" action (routes/paymentRoutes.js). Both refuse a product
    that is sold to someone else, and let its buyer back in. The mock payment creates a
    Transaction without a reference, which the Transaction schema rejects, so it always
    fails before the product is marked sold. */
module Payment {
  import opened Collections
  import opened Models
  import opened Ledger
  import Orders

  /** The access rule of both handlers: an unsold product, or one sold to this user. */
  predicate MayAccess(p: Product, uid: UserId) {
    !p.isSold || p.buyer == Some(uid)
  }

  datatype PageOutcome = PageNotLoggedIn | PageNotFound | PageSold | ShowPage(product: Product)

  /** `GET /payment/:productId`: renders the page with the whole product record, secret field
      included, for a signed-in user who may access it. What the template displays of it is not
      modelled. Nothing in the store changes. */
  function PaymentPage(s: State, productId: ProductId): (r: PageOutcome)
    ensures s.session.user.None? ==> r == PageNotLoggedIn
    ensures s.session.user.Some? && ProductIndex(s.products, productId).None? ==> r == PageNotFound
    ensures r.ShowPage? <==>
              && s.session.user.Some? && ProductIndex(s.products, productId).Some?
              && MayAccess(s.products[ProductIndex(s.products, productId).value], s.session.user.value.id)
    ensures r.ShowPage? ==> r.product == s.products[ProductIndex(s.products, productId).value]
    ensures r.PageSold? ==> s.products[ProductIndex(s.products, productId).value].isSold
    ensures s.session.user.Some? && ProductIndex(s.products, productId).Some?
            && !MayAccess(s.products[ProductIndex(s.products, productId).value], s.session.user.value.id) ==>
              r == PageSold
  {
    if s.session.user.None? then PageNotLoggedIn
    else match ProductIndex(s.products, productId)
      case None => PageNotFound
      case Some(pi) =>
        if MayAccess(s.products[pi], s.session.user.value.id) then ShowPage(s.products[pi]) else PageSold
  }

  datatype PayOutcome = NotLoggedIn | MissingProductId | ProductNotFound | AlreadySold | PaymentFailed | Paid

  /** Every product with the given id, sold to uid. */
  function MarkSold(products: seq<Product>, id: ProductId, uid: UserId): (r: seq<Product>)
    ensures |r| == |products|
    ensures forall i :: 0 <= i < |products| ==>
              r[i] == if products[i].id == id then products[i].(isSold := true, buyer := Some(uid)) else products[i]
  {
    seq(|products|, i requires 0 <= i < |products| =>
      if products[i].id == id then products[i].(isSold := true, buyer := Some(uid)) else products[i])
  }

  /** `POST /pay`. `productId` is None when the field is missing or empty. After the guards the
      handler creates a Transaction with the user, the amount and the status "success" but no
      reference; only if that were accepted would it record it and mark the product sold. */
  function Pay(s: State, productId: Option<ProductId>, now: int): (r: (PayOutcome, State))
    ensures s.session.user.None? ==> r == (NotLoggedIn, s)
    ensures s.session.user.Some? && productId.None? ==> r == (MissingProductId, s)
    ensures s.session.user.Some? && productId.Some? && ProductIndex(s.products, productId.value).None? ==>
              r == (ProductNotFound, s)
    ensures s.session.user.Some? && productId.Some? && ProductIndex(s.products, productId.value).Some? ==>
              var p := s.products[ProductIndex(s.products, productId.value).value];
              && (!MayAccess(p, s.session.user.value.id) ==> r == (AlreadySold, s))
              && (MayAccess(p, s.session.user.value.id) ==> r == (PaymentFailed, s))
    // the mock payment never succeeds: no product is sold and no Transaction recorded through it
    ensures r.1 == s && !r.0.Paid?
  {
    if s.session.user.None? then (NotLoggedIn, s)
    else match productId
      case None => (MissingProductId, s)
      case Some(id) =>
        match ProductIndex(s.products, id)
        case None => (ProductNotFound, s)
        case Some(pi) =>
          var product := s.products[pi];
          var uid := s.session.user.value.id;
          if !MayAccess(product, uid) then (AlreadySold, s)
          else match NewTransaction(None, Some(uid), product.price, Some(Success), None, now)
            case None => (PaymentFailed, s)
            case Some(tx) =>
              (Paid, s.(transactions := s.transactions + [tx], products := MarkSold(s.products, id, uid)))
  }

  /** After a purchase, its buyer still reaches the payment page, rendered with the record that
      carries the secret, and
      passes the sold check of the mock payment, while any other signed-in user is turned away
      from both. */
  lemma BuyerMayReturn(s: State, productId: ProductId, now: int, other: UserId, later: int)
    requires Valid(s) && Orders.CanBuy(s, productId)
    ensures var s1 := Orders.Buy(s, productId, now, Orders.NoFault).1;
            var secret := s.products[ProductIndex(s.products, productId).value].secretInfo;
            && PaymentPage(s1, productId).ShowPage? && PaymentPage(s1, productId).product.secretInfo == secret
            && Pay(s1, Some(productId), later).0 == PaymentFailed
            && (other != s.session.user.value.id ==>
                  var s2 := s1.(session := Session(Some(SessionUser(other, "", None)), false));
                  PaymentPage(s2, productId) == PageSold && Pay(s2, Some(productId), later).0 == AlreadySold)
  {
    Orders.BuySuccess(s, productId, now);
    var s1 := Orders.Buy(s, productId, now, Orders.NoFault).1;
    var pi := ProductIndex(s.products, productId).value;
    assert s1.products[pi].id == productId;
    assert ProductIndex(s1.products, productId) == Some(pi);
  }
}
