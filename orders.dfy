/** The purchase handler `POST /buy/:productId` (routes/orderRoutes.js:18-75): guards, then
    debit, mark sold and order creation, each saved in turn. A save that fails is an explicit
    fault input; the steps saved before it stay saved, as the handler does no rollback. */
module Orders {
  import opened Collections
  import opened Models
  import opened Ledger

  /** Which save, if any, throws. */
  datatype SaveFault = NoFault | UserSaveFails | ProductSaveFails | OrderSaveFails

  datatype BuyOutcome =
    | NotLoggedIn
    | ProductNotFound
    | AlreadySold
    | InsufficientFunds
    | PurchaseFailed
    | Purchased(order: Order)

  /** The order a purchase creates: one item of quantity 1 snapshotting the product. */
  function PurchaseOrder(buyer: UserId, p: Product, now: int): Order {
    Order(buyer, [OrderItem(p.name, 1, p.price, p.secretInfo)], p.price, "Completed", now)
  }

  /** The guards have passed: the product exists unsold, the buyer exists and can pay. */
  predicate CanBuy(s: State, productId: ProductId) {
    && s.session.user.Some?
    && var pi := ProductIndex(s.products, productId);
       var ui := UserIndex(s.users, s.session.user.value.id);
       && pi.Some? && !s.products[pi.value].isSold
       && ui.Some? && s.users[ui.value].walletBalance >= s.products[pi.value].price
  }

  function Buy(s: State, productId: ProductId, now: int, fault: SaveFault): (r: (BuyOutcome, State))
    // rejections leave everything as it was
    ensures s.session.user.None? ==> r == (NotLoggedIn, s)
    ensures s.session.user.Some? && ProductIndex(s.products, productId).None? ==> r == (ProductNotFound, s)
    ensures s.session.user.Some? && ProductIndex(s.products, productId).Some? ==>
              var p := s.products[ProductIndex(s.products, productId).value];
              var ui := UserIndex(s.users, s.session.user.value.id);
              && (p.isSold ==> r == (AlreadySold, s))
              && (!p.isSold && ui.None? ==> r == (PurchaseFailed, s))
              && (!p.isSold && ui.Some? && s.users[ui.value].walletBalance < p.price ==> r == (InsufficientFunds, s))
    // success: exactly the guards with no failing save
    ensures r.0.Purchased? <==> CanBuy(s, productId) && fault == NoFault
  {
    if s.session.user.None? then (NotLoggedIn, s)
    else
      var uid := s.session.user.value.id;
      match ProductIndex(s.products, productId)
      case None => (ProductNotFound, s)
      case Some(pi) =>
        var product := s.products[pi];
        if product.isSold then (AlreadySold, s)
        else match UserIndex(s.users, uid)
          // reading the balance of a missing user throws before any save
          case None => (PurchaseFailed, s)
          case Some(ui) =>
            var user := s.users[ui];
            if user.walletBalance < product.price then (InsufficientFunds, s)
            else
              var debited := user.(walletBalance := user.walletBalance - product.price);
              if fault.UserSaveFails? then (PurchaseFailed, s)
              else
                var s1 := s.(users := s.users[ui := debited]);
                if fault.ProductSaveFails? then (PurchaseFailed, s1)
                else
                  var s2 := s1.(products := s.products[pi := product.(isSold := true, buyer := Some(uid))]);
                  if fault.OrderSaveFails? then (PurchaseFailed, s2)
                  else
                    var order := PurchaseOrder(uid, product, now);
                    (Purchased(order),
                     s2.(orders := s.orders + [order],
                         session := s.session.(user := Some(s.session.user.value.(walletBalance := Some(debited.walletBalance))))))
  }

  /** A successful purchase debits the buyer by the price, leaving a non-negative balance, marks
      the product sold to the buyer, appends exactly one order, and changes no other user, no
      other product and no transaction. */
  lemma BuySuccess(s: State, productId: ProductId, now: int)
    requires CanBuy(s, productId)
    ensures var uid := s.session.user.value.id;
            var pi := ProductIndex(s.products, productId).value;
            var ui := UserIndex(s.users, uid).value;
            var p := s.products[pi];
            var debited := s.users[ui].walletBalance - p.price;
            var r := Buy(s, productId, now, NoFault);
            && debited >= 0.0
            && r.1.users == s.users[ui := s.users[ui].(walletBalance := debited)]
            && r.1.products == s.products[pi := p.(isSold := true, buyer := Some(uid))]
            && r.1.transactions == s.transactions
            && r.0 == Purchased(Order(uid, [OrderItem(p.name, 1, p.price, p.secretInfo)], p.price, "Completed", now))
            && r.1.orders == s.orders + [r.0.order]
            && r.1.session == s.session.(user := Some(s.session.user.value.(walletBalance := Some(debited))))
  {
  }

  /** A save that throws after the debit has been saved leaves the debit (and a saved mark) in
      place, creates no order and reports failure: the handler does not compensate. */
  lemma BuyPartialFailure(s: State, productId: ProductId, now: int, fault: SaveFault)
    requires CanBuy(s, productId) && fault != NoFault
    ensures var uid := s.session.user.value.id;
            var pi := ProductIndex(s.products, productId).value;
            var ui := UserIndex(s.users, uid).value;
            var p := s.products[pi];
            var debitedUsers := s.users[ui := s.users[ui].(walletBalance := s.users[ui].walletBalance - p.price)];
            var r := Buy(s, productId, now, fault);
            && r.0 == PurchaseFailed
            && r.1.orders == s.orders && r.1.transactions == s.transactions && r.1.session == s.session
            && (fault == UserSaveFails ==> r.1 == s)
            && (fault == ProductSaveFails ==> r.1.users == debitedUsers && r.1.products == s.products)
            && (fault == OrderSaveFails ==>
                  r.1.users == debitedUsers && r.1.products == s.products[pi := p.(isSold := true, buyer := Some(uid))])
  {
  }

  /** Every purchase attempt keeps the schema invariant, and keeps all balances non-negative. */
  lemma BuyKeepsInvariant(s: State, productId: ProductId, now: int, fault: SaveFault)
    ensures var r := Buy(s, productId, now, fault);
            && (Valid(s) ==> Valid(r.1))
            && (BalancesNonNegative(s.users) ==> BalancesNonNegative(r.1.users))
  {
    var r := Buy(s, productId, now, fault);
    if !CanBuy(s, productId) {
      assert r.1 == s;
    } else {
      var uid := s.session.user.value.id;
      var pi := ProductIndex(s.products, productId).value;
      var ui := UserIndex(s.users, uid).value;
      var p := s.products[pi];
      var debited := s.users[ui].walletBalance - p.price;
      var users' := s.users[ui := s.users[ui].(walletBalance := debited)];
      var products' := s.products[pi := p.(isSold := true, buyer := Some(uid))];
      if fault.NoFault? {
        BuySuccess(s, productId, now);
      } else {
        BuyPartialFailure(s, productId, now, fault);
      }
      assert r.1.users == s.users || r.1.users == users';
      assert r.1.products == s.products || r.1.products == products';
      assert r.1.transactions == s.transactions;
      if Valid(s) {
        SetBalanceKeepsValid(s.users, ui, debited);
        SetProductKeepsValid(s.products, pi, p.(isSold := true, buyer := Some(uid)));
      }
    }
  }

  /** A product is sold at most once: once a purchase succeeds, every later purchase of the
      same product is rejected as already sold and changes nothing, whoever makes it. */
  lemma SoldOnce(s: State, productId: ProductId, now: int, other: Session, later: int, fault: SaveFault)
    requires Valid(s) && Buy(s, productId, now, NoFault).0.Purchased?
    requires other.user.Some?
    ensures var s1 := Buy(s, productId, now, NoFault).1.(session := other);
            Buy(s1, productId, later, fault) == (AlreadySold, s1)
  {
    var s1 := Buy(s, productId, now, NoFault).1.(session := other);
    var pi := ProductIndex(s.products, productId).value;
    assert s1.products[pi].id == productId;
    assert ProductIndex(s1.products, productId) == Some(pi);
  }

  /** The scenario of a user holding 5000 who buys a product priced 3000. */
  lemma BuyScenario(p: Product, u: User, now: int)
    requires p.price == 3000.0 && !p.isSold && u.walletBalance == 5000.0
    ensures var s := State([u], [p], [], [], Session(Some(SessionUser(u.id, u.email, None)), false));
            var r := Buy(s, p.id, now, NoFault);
            && r.1.users[0].walletBalance == 2000.0
            && r.1.products[0].isSold && r.1.products[0].buyer == Some(u.id)
            && r.1.orders == [Order(u.id, [OrderItem(p.name, 1, 3000.0, p.secretInfo)], 3000.0, "Completed", now)]
  {
    var s := State([u], [p], [], [], Session(Some(SessionUser(u.id, u.email, None)), false));
    assert ProductIndex(s.products, p.id) == Some(0);
    assert UserIndex(s.users, u.id) == Some(0);
  }
}
