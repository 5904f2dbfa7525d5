/** Accounts, the shop and a user's order history (routes/userRoutes.js): signup, login and
    logout, the product listing with its country and platform filters, newest first, and the
    signed-in user's orders, newest first. The email validator, bcrypt's hash and compare are
    inputs; an email is looked up as the schema stores it, lower-cased and trimmed. */
module Users {
  import opened Collections
  import opened Models
  import opened Ledger
  import Email
  import Orders

  /** The signup validators: a valid email and a password of at least 6 characters. */
  predicate SignupFieldsValid(email: string, password: string, isEmail: string -> bool) {
    isEmail(email) && |password| >= 6
  }

  datatype SignupOutcome = InvalidSignup | EmailTaken | SignupFailed | SignedUp

  /** `POST /signup`. `passwordHash` is bcrypt's hash of the password; `newId` the id the new
      document receives (one already taken fails like the create itself failing). */
  function Signup(s: State, email: string, password: string, isEmail: string -> bool,
                  passwordHash: string, newId: UserId): (r: (SignupOutcome, State))
    ensures !SignupFieldsValid(email, password, isEmail) ==> r == (InvalidSignup, s)
    ensures SignupFieldsValid(email, password, isEmail) && UserIndexByEmail(s.users, email).Some? ==>
              r == (EmailTaken, s)
    ensures SignupFieldsValid(email, password, isEmail) && UserIndexByEmail(s.users, email).None?
            && (Email.Normalise(email) == "" || passwordHash == "" || UserIndex(s.users, newId).Some?) ==>
              r == (SignupFailed, s)
    ensures r.0.SignedUp? <==>
              && SignupFieldsValid(email, password, isEmail) && UserIndexByEmail(s.users, email).None?
              && Email.Normalise(email) != "" && passwordHash != "" && UserIndex(s.users, newId).None?
    ensures r.0.SignedUp? ==>
              r.1 == s.(users := s.users + [NewUser(newId, email, passwordHash).value],
                        session := s.session.(user := Some(SessionUser(newId, Email.Normalise(email), None))))
    ensures !r.0.SignedUp? ==> r.1 == s
  {
    if !SignupFieldsValid(email, password, isEmail) then (InvalidSignup, s)
    else if UserIndexByEmail(s.users, email).Some? then (EmailTaken, s)
    else match NewUser(newId, email, passwordHash)
      case None => (SignupFailed, s)
      case Some(user) =>
        if UserIndex(s.users, newId).Some? then (SignupFailed, s)
        else (SignedUp, s.(users := s.users + [user],
                           session := s.session.(user := Some(SessionUser(user.id, user.email, None)))))
  }

  /** Signup keeps the invariant: the new email, stored normalised, is one no user has, and the
      new id is fresh. */
  lemma SignupKeepsValid(s: State, email: string, password: string, isEmail: string -> bool,
                         passwordHash: string, newId: UserId)
    requires Valid(s)
    ensures Valid(Signup(s, email, password, isEmail, passwordHash, newId).1)
  {
    var r := Signup(s, email, password, isEmail, passwordHash, newId);
    if r.0.SignedUp? {
      var user := NewUser(newId, email, passwordHash).value;
      Email.NormaliseIdempotent(email);
      assert forall j :: 0 <= j < |s.users| ==> s.users[j].id != user.id && s.users[j].email != user.email;
      AddUserKeepsValid(s.users, user);
    }
  }

  /** Two emails that normalise to the same address and that the validator accepts name one
      account: once one has signed up, signing up with the other is refused as taken. */
  lemma SignupCaseInsensitive(s: State, email: string, email2: string, password: string, password2: string,
                              isEmail: string -> bool, hash: string, hash2: string, id: UserId, id2: UserId)
    requires Signup(s, email, password, isEmail, hash, id).0.SignedUp?
    requires SignupFieldsValid(email2, password2, isEmail) && Email.Normalise(email2) == Email.Normalise(email)
    ensures var s1 := Signup(s, email, password, isEmail, hash, id).1;
            Signup(s1, email2, password2, isEmail, hash2, id2) == (EmailTaken, s1)
  {
    var s1 := Signup(s, email, password, isEmail, hash, id).1;
    assert s1.users[|s.users|].email == Email.Normalise(email2);
  }

  datatype LoginOutcome = InvalidLogin | InvalidCredentials | LoggedIn

  /** `POST /login`. `passwordMatches(password, hash)` is bcrypt's compare. An unknown email and
      a wrong password are refused alike. */
  function Login(s: State, email: string, password: string, isEmail: string -> bool,
                 passwordMatches: (string, string) -> bool): (r: (LoginOutcome, State))
    ensures !isEmail(email) || password == "" ==> r == (InvalidLogin, s)
    ensures isEmail(email) && password != "" && UserIndexByEmail(s.users, email).None? ==> r == (InvalidCredentials, s)
    ensures isEmail(email) && password != "" && UserIndexByEmail(s.users, email).Some?
            && !passwordMatches(password, s.users[UserIndexByEmail(s.users, email).value].passwordHash) ==>
              r == (InvalidCredentials, s)
    ensures r.0.LoggedIn? <==>
              && isEmail(email) && password != "" && UserIndexByEmail(s.users, email).Some?
              && passwordMatches(password, s.users[UserIndexByEmail(s.users, email).value].passwordHash)
    ensures r.0.LoggedIn? ==>
              var user := s.users[UserIndexByEmail(s.users, email).value];
              r.1 == s.(session := s.session.(user := Some(SessionUser(user.id, user.email, None))))
    ensures !r.0.LoggedIn? ==> r.1 == s
  {
    if !isEmail(email) || password == "" then (InvalidLogin, s)
    else match UserIndexByEmail(s.users, email)
      case None => (InvalidCredentials, s)
      case Some(i) =>
        var user := s.users[i];
        if !passwordMatches(password, user.passwordHash) then (InvalidCredentials, s)
        else (LoggedIn, s.(session := s.session.(user := Some(SessionUser(user.id, user.email, None)))))
  }

  /** A login whose email finds user i and whose password matches that user's hash signs in
      user i. */
  lemma LoginFinds(s: State, email: string, password: string, isEmail: string -> bool,
                   passwordMatches: (string, string) -> bool, i: nat)
    requires isEmail(email) && password != "" && UserIndexByEmail(s.users, email) == Some(i)
    requires passwordMatches(password, s.users[i].passwordHash)
    ensures Login(s, email, password, isEmail, passwordMatches) ==
              (LoggedIn, s.(session := s.session.(user := Some(SessionUser(s.users[i].id, s.users[i].email, None)))))
  {
  }

  /** Signing up and then logging in with an email that normalises to the same address and
      that the validator accepts, and a password matching the stored hash, signs in the same
      account. */
  lemma SignupThenLogin(s: State, email: string, email2: string, password: string, isEmail: string -> bool,
                        hash: string, id: UserId, passwordMatches: (string, string) -> bool)
    requires Signup(s, email, password, isEmail, hash, id).0.SignedUp?
    requires isEmail(email2) && Email.Normalise(email2) == Email.Normalise(email) && passwordMatches(password, hash)
    ensures var s1 := Signup(s, email, password, isEmail, hash, id).1;
            var r := Login(s1, email2, password, isEmail, passwordMatches);
            && r.0 == LoggedIn
            && r.1.session == s1.session
            && r.1.session.user == Some(SessionUser(id, Email.Normalise(email), None))
  {
    var s1 := Signup(s, email, password, isEmail, hash, id).1;
    var user := NewUser(id, email, hash).value;
    UserIndexByEmailAppend(s.users, user, email2);
    LoginFinds(s1, email2, password, isEmail, passwordMatches, |s.users|);
  }

  /** `POST /logout` destroys the session: no user and no admin flag remain. */
  function Logout(s: State): (r: State)
    ensures r.session.user.None? && !r.session.isAdmin
    ensures r.users == s.users && r.products == s.products && r.transactions == s.transactions && r.orders == s.orders
  {
    s.(session := EmptySession)
  }

  /** The shop's filter: an empty query value does not constrain. */
  predicate MatchesFilter(p: Product, country: string, platform: string) {
    (country == "" || p.country == country) && (platform == "" || p.platform == platform)
  }

  function ProductCreatedAt(p: Product): int {
    p.createdAt
  }

  /** `GET /shop`: every product, sold or not, that matches the filter, newest first. No
      sign-in is needed. */
  function Shop(products: seq<Product>, country: string, platform: string): (r: seq<Product>)
    ensures forall p :: p in r <==> p in products && MatchesFilter(p, country, platform)
    ensures forall p :: multiset(r)[p] == if MatchesFilter(p, country, platform) then multiset(products)[p] else 0
    ensures NewestFirst(r, ProductCreatedAt)
  {
    var matching := Filter(products, (p: Product) => MatchesFilter(p, country, platform));
    var r := SortNewestFirst(matching, ProductCreatedAt);
    assert forall p :: p in r <==> p in matching by {
      forall p ensures p in r <==> p in matching {
        assert p in r <==> multiset(r)[p] > 0;
        assert p in matching <==> multiset(matching)[p] > 0;
      }
    }
    r
  }

  /** Without filters the shop lists every product exactly once per copy, newest first. */
  lemma ShopUnfilteredListsAll(products: seq<Product>)
    ensures multiset(Shop(products, "", "")) == multiset(products)
  {
    var r := Shop(products, "", "");
    assert forall p :: multiset(r)[p] == multiset(products)[p];
  }

  function OrderCreatedAt(o: Order): int {
    o.createdAt
  }

  /** `GET /user/orders`: the signed-in user's orders, newest first; None when nobody is
      signed in. */
  function OrderHistory(s: State): (r: Option<seq<Order>>)
    ensures r.None? <==> s.session.user.None?
    ensures r.Some? ==> forall o ::
              multiset(r.value)[o] == if o.user == s.session.user.value.id then multiset(s.orders)[o] else 0
    ensures r.Some? ==> NewestFirst(r.value, OrderCreatedAt)
  {
    match s.session.user
    case None => None
    case Some(u) => Some(SortNewestFirst(Filter(s.orders, (o: Order) => o.user == u.id), OrderCreatedAt))
  }

  /** A purchase shows up in its buyer's order history, with the product's name, price and
      secret. */
  lemma PurchaseInHistory(s: State, productId: ProductId, now: int)
    requires Orders.CanBuy(s, productId)
    ensures var r := Orders.Buy(s, productId, now, Orders.NoFault);
            var p := s.products[ProductIndex(s.products, productId).value];
            && OrderHistory(r.1).Some?
            && Orders.PurchaseOrder(s.session.user.value.id, p, now) in OrderHistory(r.1).value
  {
    Orders.BuySuccess(s, productId, now);
    var r := Orders.Buy(s, productId, now, Orders.NoFault);
    var o := r.0.order;
    assert o in r.1.orders;
    var h := OrderHistory(r.1).value;
    assert multiset(h)[o] == multiset(r.1.orders)[o];
  }
}
