/** The running application: one object holding the four collections and the current
    request's session, with one method per route handler. Each method updates the fields in
    the order the handler writes to the database and the session, keeps the schema invariant,
    and ends in exactly the state (and with the outcome) its handler function describes. */
module Storefront {
  import opened Collections
  import opened Models
  import opened Ledger
  import Orders
  import Wallet
  import Payment
  import Users
  import Admin

  class Store {
    var users: seq<User>
    var products: seq<Product>
    var transactions: seq<Transaction>
    var orders: seq<Order>
    var session: Session

    /** The collections and the session as a value. */
    function Snapshot(): State
      reads this
    {
      State(users, products, transactions, orders, session)
    }

    ghost predicate Valid()
      reads this
    {
      Ledger.Valid(Snapshot())
    }

    /** A fresh deployment: empty collections and no session. */
    constructor ()
      ensures Snapshot() == State([], [], [], [], EmptySession)
      ensures Valid()
    {
      users := [];
      products := [];
      transactions := [];
      orders := [];
      session := EmptySession;
    }

    /** `POST /buy/:productId` */
    method Buy(productId: ProductId, now: int, fault: Orders.SaveFault) returns (outcome: Orders.BuyOutcome)
      requires Valid()
      modifies this
      ensures Valid()
      ensures (outcome, Snapshot()) == Orders.Buy(old(Snapshot()), productId, now, fault)
    {
      if session.user.None? {
        return Orders.NotLoggedIn;
      }
      var uid := session.user.value.id;
      var pi := ProductIndex(products, productId);
      if pi.None? {
        return Orders.ProductNotFound;
      }
      var product := products[pi.value];
      if product.isSold {
        return Orders.AlreadySold;
      }
      var ui := UserIndex(users, uid);
      if ui.None? {
        return Orders.PurchaseFailed;
      }
      var user := users[ui.value];
      if user.walletBalance < product.price {
        return Orders.InsufficientFunds;
      }
      var debited := user.(walletBalance := user.walletBalance - product.price);
      if fault.UserSaveFails? {
        return Orders.PurchaseFailed;
      }
      SetBalanceKeepsValid(users, ui.value, debited.walletBalance);
      users := users[ui.value := debited];
      if fault.ProductSaveFails? {
        return Orders.PurchaseFailed;
      }
      SetProductKeepsValid(products, pi.value, product.(isSold := true, buyer := Some(uid)));
      products := products[pi.value := product.(isSold := true, buyer := Some(uid))];
      if fault.OrderSaveFails? {
        return Orders.PurchaseFailed;
      }
      var order := Orders.PurchaseOrder(uid, product, now);
      orders := orders + [order];
      session := session.(user := Some(session.user.value.(walletBalance := Some(debited.walletBalance))));
      outcome := Orders.Purchased(order);
    }

    /** `POST /wallet/fund`: records the pending Transaction before asking the gateway. */
    method Fund(amount: Numeric, reference: string, now: int, authorizationUrl: Option<string>)
      returns (outcome: Wallet.FundOutcome)
      requires Valid()
      modifies this
      ensures Valid()
      ensures (outcome, Snapshot()) == Wallet.Fund(old(Snapshot()), amount, reference, now, authorizationUrl)
    {
      Wallet.FundKeepsValid(Snapshot(), amount, reference, now, authorizationUrl);
      if session.user.None? {
        return Wallet.FundOutcome.NotLoggedIn;
      }
      if !Wallet.ValidAmount(amount) {
        return Wallet.InvalidAmount;
      }
      if TxIndex(transactions, reference).Some? {
        return Wallet.InitFailed;
      }
      var created := NewTransaction(Some(reference), Some(session.user.value.id), amount.value, Some(Initialized), None, now);
      if created.None? {
        return Wallet.InitFailed;
      }
      transactions := transactions + [created.value];
      if authorizationUrl.None? {
        return Wallet.InitFailed;
      }
      outcome := Wallet.Redirect(authorizationUrl.value);
    }

    /** `GET /wallet/callback`: confirms the Transaction, then credits its user. */
    method Callback(reference: string, ref: string, verify: Option<VerifyData>) returns (outcome: Wallet.CallbackOutcome)
      requires Valid()
      modifies this
      ensures Valid()
      ensures (outcome, Snapshot()) == Wallet.Callback(old(Snapshot()), reference, ref, verify)
    {
      Wallet.CallbackKeepsValid(Snapshot(), reference, ref, verify);
      if session.user.None? {
        return Wallet.CallbackOutcome.NotLoggedIn;
      }
      var key := Wallet.QueryReference(reference, ref);
      if key == "" {
        return Wallet.NoReference;
      }
      if verify.None? {
        return Wallet.VerifyFailed;
      }
      var data := verify.value;
      if data.status != "success" {
        return Wallet.NotSuccessful;
      }
      var ti := TxIndex(transactions, key);
      if ti.Some? {
        var owner := transactions[ti.value].user;
        transactions := Wallet.ConfirmTransaction(transactions, key, data);
        users := Credit(users, owner, Naira(data.amount));
      }
      outcome := Wallet.Funded;
    }

    /** `POST /webhook/paystack`: records the charge, then credits. */
    method Webhook(rawBody: Bytes, signature: Option<string>, hmac: Bytes -> string,
                   parse: Bytes -> Option<Wallet.Event>, now: int) returns (outcome: Wallet.WebhookOutcome)
      requires Valid()
      modifies this
      ensures Valid()
      ensures (outcome, Snapshot()) == Wallet.Webhook(old(Snapshot()), rawBody, signature, hmac, parse, now)
    {
      Wallet.WebhookKeepsValid(Snapshot(), rawBody, signature, hmac, parse, now);
      if signature != Some(hmac(rawBody)) {
        return Wallet.InvalidSignature;
      }
      var event := parse(rawBody);
      if event.None? {
        return Wallet.ServerError;
      }
      if event.value.event != "charge.success" {
        return Wallet.Acknowledged;
      }
      if event.value.data.None? {
        return Wallet.ServerError;
      }
      var data := event.value.data.value;
      var recorded := Wallet.RecordCharge(transactions, data, now);
      if recorded.None? {
        return Wallet.ServerError;
      }
      var tx := recorded.value.0;
      transactions := recorded.value.1;
      users := Wallet.CreditCharge(users, tx, data.customerEmail, Naira(data.amount));
      outcome := Wallet.Acknowledged;
    }

    /** `GET /payment/:productId` changes nothing. */
    method PaymentPage(productId: ProductId) returns (outcome: Payment.PageOutcome)
      ensures outcome == Payment.PaymentPage(Snapshot(), productId)
    {
      if session.user.None? {
        return Payment.PageNotLoggedIn;
      }
      var pi := ProductIndex(products, productId);
      if pi.None? {
        return Payment.PageNotFound;
      }
      var product := products[pi.value];
      if !Payment.MayAccess(product, session.user.value.id) {
        return Payment.PageSold;
      }
      outcome := Payment.ShowPage(product);
    }

    /** `POST /pay`: the Transaction it creates has no reference, so nothing is ever saved. */
    method Pay(productId: Option<ProductId>, now: int) returns (outcome: Payment.PayOutcome)
      requires Valid()
      modifies this
      ensures Valid()
      ensures (outcome, Snapshot()) == Payment.Pay(old(Snapshot()), productId, now)
    {
      if session.user.None? {
        return Payment.NotLoggedIn;
      }
      if productId.None? {
        return Payment.MissingProductId;
      }
      var pi := ProductIndex(products, productId.value);
      if pi.None? {
        return Payment.ProductNotFound;
      }
      var product := products[pi.value];
      var uid := session.user.value.id;
      if !Payment.MayAccess(product, uid) {
        return Payment.AlreadySold;
      }
      var created := NewTransaction(None, Some(uid), product.price, Some(Success), None, now);
      if created.None? {
        return Payment.PaymentFailed;
      }
      // A Transaction without a reference is never created, so the writes after it never run.
      assert false;
    }

    /** `POST /signup`: creates the user, then signs them in. */
    method Signup(email: string, password: string, isEmail: string -> bool, passwordHash: string, newId: UserId)
      returns (outcome: Users.SignupOutcome)
      requires Valid()
      modifies this
      ensures Valid()
      ensures (outcome, Snapshot()) == Users.Signup(old(Snapshot()), email, password, isEmail, passwordHash, newId)
    {
      if !Users.SignupFieldsValid(email, password, isEmail) {
        return Users.InvalidSignup;
      }
      if UserIndexByEmail(users, email).Some? {
        return Users.EmailTaken;
      }
      var created := NewUser(newId, email, passwordHash);
      if created.None? || UserIndex(users, newId).Some? {
        return Users.SignupFailed;
      }
      var user := created.value;
      Users.SignupKeepsValid(Snapshot(), email, password, isEmail, passwordHash, newId);
      users := users + [user];
      session := session.(user := Some(SessionUser(user.id, user.email, None)));
      outcome := Users.SignedUp;
    }

    /** `POST /login` */
    method Login(email: string, password: string, isEmail: string -> bool, passwordMatches: (string, string) -> bool)
      returns (outcome: Users.LoginOutcome)
      requires Valid()
      modifies this
      ensures Valid()
      ensures (outcome, Snapshot()) == Users.Login(old(Snapshot()), email, password, isEmail, passwordMatches)
    {
      if !isEmail(email) || password == "" {
        return Users.InvalidLogin;
      }
      var ui := UserIndexByEmail(users, email);
      if ui.None? {
        return Users.InvalidCredentials;
      }
      var user := users[ui.value];
      if !passwordMatches(password, user.passwordHash) {
        return Users.InvalidCredentials;
      }
      session := session.(user := Some(SessionUser(user.id, user.email, None)));
      outcome := Users.LoggedIn;
    }

    /** `POST /logout` */
    method Logout()
      requires Valid()
      modifies this
      ensures Valid()
      ensures Snapshot() == Users.Logout(old(Snapshot()))
    {
      session := EmptySession;
    }

    /** `GET /shop` changes nothing. */
    method Shop(country: string, platform: string) returns (listing: seq<Product>)
      ensures listing == Users.Shop(products, country, platform)
    {
      var matching := Filter(products, (p: Product) => Users.MatchesFilter(p, country, platform));
      listing := SortNewestFirst(matching, Users.ProductCreatedAt);
    }

    /** `GET /user/orders` changes nothing. */
    method OrderHistory() returns (history: Option<seq<Order>>)
      ensures history == Users.OrderHistory(Snapshot())
    {
      if session.user.None? {
        return None;
      }
      var uid := session.user.value.id;
      history := Some(SortNewestFirst(Filter(orders, (o: Order) => o.user == uid), Users.OrderCreatedAt));
    }

    /** `POST /admin-login` */
    method AdminLogin(passcode: string, configured: Option<string>) returns (outcome: Admin.AdminLoginOutcome)
      requires Valid()
      modifies this
      ensures Valid()
      ensures (outcome, Snapshot()) == Admin.AdminLogin(old(Snapshot()), passcode, configured)
    {
      if passcode == "" {
        return Admin.PasscodeRequired;
      }
      if configured != Some(passcode) {
        return Admin.InvalidPasscode;
      }
      session := session.(isAdmin := true);
      outcome := Admin.AdminAuthenticated;
    }

    /** `POST /admin-logout` */
    method AdminLogout()
      requires Valid()
      modifies this
      ensures Valid()
      ensures Snapshot() == Admin.AdminLogout(old(Snapshot()))
    {
      session := session.(isAdmin := false);
    }

    /** `POST /admin/products` */
    method AddProduct(name: string, imageUrl: string, description: string, secretInfo: string,
                      country: string, platform: string, price: Option<Numeric>, newId: ProductId, now: int)
      returns (outcome: Admin.AddOutcome)
      requires Valid()
      modifies this
      ensures Valid()
      ensures (outcome, Snapshot()) ==
                Admin.AddProduct(old(Snapshot()), name, imageUrl, description, secretInfo, country, platform, price, newId, now)
    {
      Admin.AddProductKeepsValid(Snapshot(), name, imageUrl, description, secretInfo, country, platform, price, newId, now);
      if !session.isAdmin {
        return Admin.AddAdminRequired;
      }
      if !Admin.ProductFieldsValid(name, secretInfo, country, platform) {
        return Admin.InvalidProduct;
      }
      var amount := Admin.PriceOf(price);
      if amount.None? || ProductIndex(products, newId).Some? {
        return Admin.AddFailed;
      }
      products := products + [NewProduct(newId, name, description, amount.value, imageUrl, country, platform, secretInfo, now)];
      outcome := Admin.ProductAdded;
    }

    /** `POST /admin/products/:id/delete` */
    method DeleteProduct(id: ProductId) returns (outcome: Admin.DeleteOutcome)
      requires Valid()
      modifies this
      ensures Valid()
      ensures (outcome, Snapshot()) == Admin.DeleteProduct(old(Snapshot()), id)
    {
      Admin.DeleteKeepsValid(Snapshot(), id);
      if !session.isAdmin {
        return Admin.DeleteAdminRequired;
      }
      products := Admin.RemoveProduct(products, id);
      outcome := Admin.Deleted;
    }
  }
}
