/** The store's state: the four collections and the current request's session, the lookups
    the route handlers make on them, the schema's uniqueness constraints as an invariant, and
    the `$inc` credit of a wallet. */
module Ledger {
  import opened Collections
  import opened Models
  import Email

  /** `req.session.user`: the id and email set at signup or login, and the balance the
      purchase handler copies into it. */
  datatype SessionUser = SessionUser(id: UserId, email: string, walletBalance: Option<real>)

  /** A session carries an optional user and the admin flag (absent reads as false). */
  datatype Session = Session(user: Option<SessionUser>, isAdmin: bool)

  const EmptySession: Session := Session(None, false)

  datatype State = State(
    users: seq<User>,
    products: seq<Product>,
    transactions: seq<Transaction>,
    orders: seq<Order>,
    session: Session)

  /** User.findById */
  function UserIndex(users: seq<User>, id: UserId): (r: Option<nat>)
    ensures r.Some? ==> r.value < |users| && users[r.value].id == id
    ensures r.None? ==> forall j :: 0 <= j < |users| ==> users[j].id != id
    ensures r.Some? ==> forall j :: 0 <= j < r.value ==> users[j].id != id
  {
    FirstIndex(users, (u: User) => u.id == id)
  }

  /** User.findOne({ email }): the schema's lowercase and trim setters apply to the query value. */
  function UserIndexByEmail(users: seq<User>, email: string): (r: Option<nat>)
    ensures r.Some? ==> r.value < |users| && users[r.value].email == Email.Normalise(email)
    ensures r.None? ==> forall j :: 0 <= j < |users| ==> users[j].email != Email.Normalise(email)
    ensures r.Some? ==> forall j :: 0 <= j < r.value ==> users[j].email != Email.Normalise(email)
  {
    FirstIndex(users, (u: User) => u.email == Email.Normalise(email))
  }

  /** Product.findById */
  function ProductIndex(products: seq<Product>, id: ProductId): (r: Option<nat>)
    ensures r.Some? ==> r.value < |products| && products[r.value].id == id
    ensures r.None? ==> forall j :: 0 <= j < |products| ==> products[j].id != id
    ensures r.Some? ==> forall j :: 0 <= j < r.value ==> products[j].id != id
  {
    FirstIndex(products, (p: Product) => p.id == id)
  }

  /** Transaction.findOne({ reference }) */
  function TxIndex(transactions: seq<Transaction>, reference: string): (r: Option<nat>)
    ensures r.Some? ==> r.value < |transactions| && transactions[r.value].reference == reference
    ensures r.None? ==> forall j :: 0 <= j < |transactions| ==> transactions[j].reference != reference
    ensures r.Some? ==> forall j :: 0 <= j < r.value ==> transactions[j].reference != reference
  {
    FirstIndex(transactions, (t: Transaction) => t.reference == reference)
  }

  /** Ids and emails are unique (`unique: true`); emails are stored normalised; both required
      fields are present. */
  predicate UsersValid(users: seq<User>) {
    && (forall i, j :: 0 <= i < j < |users| ==> users[i].id != users[j].id && users[i].email != users[j].email)
    && (forall i :: 0 <= i < |users| ==>
          Email.IsNormalised(users[i].email) && users[i].email != "" && users[i].passwordHash != "")
  }

  /** Ids are unique, and a product has a buyer exactly when it is sold. */
  predicate ProductsValid(products: seq<Product>) {
    && (forall i, j :: 0 <= i < j < |products| ==> products[i].id != products[j].id)
    && (forall i :: 0 <= i < |products| ==> (products[i].isSold <==> products[i].buyer.Some?))
  }

  /** References are present and unique; the live routes never write the status "failed". */
  predicate TransactionsValid(transactions: seq<Transaction>) {
    && (forall i, j :: 0 <= i < j < |transactions| ==> transactions[i].reference != transactions[j].reference)
    && (forall i :: 0 <= i < |transactions| ==>
          transactions[i].reference != "" && transactions[i].status != Failed)
  }

  predicate Valid(s: State) {
    UsersValid(s.users) && ProductsValid(s.products) && TransactionsValid(s.transactions)
  }

  predicate BalancesNonNegative(users: seq<User>) {
    forall i :: 0 <= i < |users| ==> users[i].walletBalance >= 0.0
  }

  /** Two user records that differ at most in their balance. */
  predicate SameAccount(a: User, b: User) {
    a.id == b.id && a.email == b.email && a.passwordHash == b.passwordHash
  }

  /** Changing balances keeps the user invariant. */
  lemma BalancesOnlyKeepValid(users: seq<User>, r: seq<User>)
    requires UsersValid(users) && |r| == |users|
    requires forall j :: 0 <= j < |users| ==> SameAccount(r[j], users[j])
    ensures UsersValid(r)
  {
  }

  /** Setting one user's balance keeps the user invariant. */
  lemma SetBalanceKeepsValid(users: seq<User>, i: nat, balance: real)
    requires UsersValid(users) && i < |users|
    ensures UsersValid(users[i := users[i].(walletBalance := balance)])
  {
    var r := users[i := users[i].(walletBalance := balance)];
    assert forall j :: 0 <= j < |users| ==> SameAccount(r[j], users[j]);
    BalancesOnlyKeepValid(users, r);
  }

  /** Appending a user whose id and email are new keeps the user invariant. */
  lemma AddUserKeepsValid(users: seq<User>, u: User)
    requires UsersValid(users)
    requires Email.IsNormalised(u.email) && u.email != "" && u.passwordHash != ""
    requires forall j :: 0 <= j < |users| ==> users[j].id != u.id && users[j].email != u.email
    ensures UsersValid(users + [u])
  {
  }

  /** Replacing a product by one with the same id and a consistent sold flag keeps the product
      invariant. */
  lemma SetProductKeepsValid(products: seq<Product>, i: nat, p: Product)
    requires ProductsValid(products) && i < |products|
    requires p.id == products[i].id && (p.isSold <==> p.buyer.Some?)
    ensures ProductsValid(products[i := p])
  {
  }

  /** User.findByIdAndUpdate(id, { $inc: { walletBalance: amount } }): the first user with the
      id gains amount; a null id or an id no user has changes nothing. Only balances change. */
  function Credit(users: seq<User>, id: Option<UserId>, amount: real): (r: seq<User>)
    ensures |r| == |users|
    ensures forall j :: 0 <= j < |users| ==> SameAccount(r[j], users[j])
    ensures id.None? || UserIndex(users, id.value).None? ==> r == users
    ensures id.Some? && UserIndex(users, id.value).Some? ==>
              var i := UserIndex(users, id.value).value;
              r[i].walletBalance == users[i].walletBalance + amount
              && forall j :: 0 <= j < |users| && j != i ==> r[j] == users[j]
  {
    match id
    case None => users
    case Some(uid) =>
      match UserIndex(users, uid)
      case None => users
      case Some(i) => users[i := users[i].(walletBalance := users[i].walletBalance + amount)]
  }

  /** The balance of the user with the given id, if there is one. */
  function BalanceOf(users: seq<User>, id: UserId): Option<real> {
    match UserIndex(users, id)
    case None => None
    case Some(i) => Some(users[i].walletBalance)
  }

  /** The status of the Transaction with the given reference, if there is one. */
  function StatusOf(transactions: seq<Transaction>, reference: string): Option<TxStatus> {
    match TxIndex(transactions, reference)
    case None => None
    case Some(i) => Some(transactions[i].status)
  }

  /** The user the Transaction with the given reference belongs to, if there is such a
      Transaction and it has a user. */
  function TxUserOf(transactions: seq<Transaction>, reference: string): Option<UserId> {
    match TxIndex(transactions, reference)
    case None => None
    case Some(i) => transactions[i].user
  }

  /** Lookups by id or email find the same index in two tables that differ only in balances. */
  lemma SameAccountsSameIndex(a: seq<User>, b: seq<User>, id: UserId, email: string)
    requires |a| == |b| && forall j :: 0 <= j < |a| ==> SameAccount(a[j], b[j])
    ensures UserIndex(a, id) == UserIndex(b, id)
    ensures UserIndexByEmail(a, email) == UserIndexByEmail(b, email)
  {
  }

  /** A credit to a user who exists raises that user's balance by the amount. */
  lemma CreditBalance(users: seq<User>, id: UserId, amount: real)
    requires BalanceOf(users, id).Some?
    ensures BalanceOf(Credit(users, Some(id), amount), id) == Some(BalanceOf(users, id).value + amount)
  {
    SameAccountsSameIndex(users, Credit(users, Some(id), amount), id, "");
  }

  /** Lookups by reference find the same index in two tables with the same references. */
  lemma SameReferencesSameIndex(a: seq<Transaction>, b: seq<Transaction>, reference: string)
    requires |a| == |b| && forall j :: 0 <= j < |a| ==> a[j].reference == b[j].reference
    ensures TxIndex(a, reference) == TxIndex(b, reference)
  {
  }

  /** A user appended with an email no earlier user has is the one that email finds. */
  lemma UserIndexByEmailAppend(users: seq<User>, u: User, email: string)
    requires forall j :: 0 <= j < |users| ==> users[j].email != Email.Normalise(email)
    requires u.email == Email.Normalise(email)
    ensures UserIndexByEmail(users + [u], email) == Some(|users|)
  {
    assert (users + [u])[|users|] == u;
  }

  /** A Transaction appended with a reference no earlier one has is the one it finds. */
  lemma TxIndexAppend(transactions: seq<Transaction>, tx: Transaction)
    requires TxIndex(transactions, tx.reference).None?
    ensures TxIndex(transactions + [tx], tx.reference) == Some(|transactions|)
  {
    assert (transactions + [tx])[|transactions|] == tx;
  }

  /** Under the invariant, the user found by id is the only one with that id. */
  lemma UserIndexUnique(users: seq<User>, i: nat)
    requires UsersValid(users) && i < |users|
    ensures UserIndex(users, users[i].id) == Some(i)
  {
  }

  lemma TxIndexUnique(transactions: seq<Transaction>, i: nat)
    requires TransactionsValid(transactions) && i < |transactions|
    ensures TxIndex(transactions, transactions[i].reference) == Some(i)
  {
  }
}
