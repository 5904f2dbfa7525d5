/** Properties that span the route files: what a visitor without a session can do, and how
    the admin's product changes show in the shop and on the payment page. */
module Access {
  import opened Collections
  import opened Models
  import opened Ledger
  import Orders
  import Wallet
  import Payment
  import Users
  import Admin

  /** After `POST /logout` every handler behind requireAuth or requireAdmin refuses and changes
      nothing; only the webhook, which authenticates by signature, still credits. */
  lemma LoggedOutIsRefused(s: State, productId: ProductId, now: int, fault: Orders.SaveFault,
                           amount: Numeric, reference: string, url: Option<string>,
                           ref: string, verify: Option<VerifyData>, name: string, imageUrl: string,
                           description: string, secretInfo: string, country: string, platform: string,
                           price: Option<Numeric>, newId: ProductId)
    ensures var s0 := Users.Logout(s);
            && Orders.Buy(s0, productId, now, fault) == (Orders.NotLoggedIn, s0)
            && Wallet.Fund(s0, amount, reference, now, url) == (Wallet.FundOutcome.NotLoggedIn, s0)
            && Wallet.Callback(s0, reference, ref, verify) == (Wallet.CallbackOutcome.NotLoggedIn, s0)
            && Payment.PaymentPage(s0, productId) == Payment.PageNotLoggedIn
            && Payment.Pay(s0, Some(productId), now) == (Payment.NotLoggedIn, s0)
            && Payment.Pay(s0, None, now) == (Payment.NotLoggedIn, s0)
            && Users.OrderHistory(s0).None?
            && Admin.AddProduct(s0, name, imageUrl, description, secretInfo, country, platform, price, newId, now) ==
                 (Admin.AddAdminRequired, s0)
            && Admin.DeleteProduct(s0, productId) == (Admin.DeleteAdminRequired, s0)
  {
  }

  /** Once the admin deletes a product, no shop listing shows it, whatever the filter. */
  lemma DeletedNotInShop(s: State, id: ProductId, country: string, platform: string)
    requires Valid(s) && s.session.isAdmin
    ensures forall p :: p in Users.Shop(Admin.DeleteProduct(s, id).1.products, country, platform) ==> p.id != id
  {
    var s1 := Admin.DeleteProduct(s, id).1;
    Admin.DeleteRemoves(s, id);
    forall p | p in Users.Shop(s1.products, country, platform)
      ensures p.id != id
    {
      assert p in s1.products;
      var k :| 0 <= k < |s1.products| && s1.products[k] == p;
    }
  }

  /** A deleted product cannot be bought and has no payment page any more. */
  lemma DeletedNotForSale(s: State, id: ProductId, now: int, fault: Orders.SaveFault)
    requires Valid(s) && s.session.isAdmin && s.session.user.Some?
    ensures var s1 := Admin.DeleteProduct(s, id).1;
            && Orders.Buy(s1, id, now, fault) == (Orders.ProductNotFound, s1)
            && Payment.PaymentPage(s1, id) == Payment.PageNotFound
  {
    Admin.DeleteRemoves(s, id);
  }

  /** A product the admin adds is listed by the unfiltered shop and can be paid for by any
      signed-in user: its payment page is rendered with it. */
  lemma AddedProductListed(s: State, name: string, imageUrl: string, description: string, secretInfo: string,
                           country: string, platform: string, price: Option<Numeric>, newId: ProductId, now: int)
    requires Admin.AddProduct(s, name, imageUrl, description, secretInfo, country, platform, price, newId, now).0.ProductAdded?
    ensures var s1 := Admin.AddProduct(s, name, imageUrl, description, secretInfo, country, platform, price, newId, now).1;
            && NewProduct(newId, name, description, Admin.PriceOf(price).value, imageUrl, country, platform, secretInfo, now)
                 in Users.Shop(s1.products, "", "")
            && (s.session.user.Some? ==> Payment.PaymentPage(s1, newId).ShowPage?)
  {
    Admin.AddedProductOnSale(s, name, imageUrl, description, secretInfo, country, platform, price, newId, now);
    var s1 := Admin.AddProduct(s, name, imageUrl, description, secretInfo, country, platform, price, newId, now).1;
    assert s1.products[|s.products|] in s1.products;
  }
}
