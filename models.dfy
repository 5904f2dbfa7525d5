/** The record kinds of the store (models/User.js, models/Product.js, models/Transaction.js,
    and the Order shape that routes/orderRoutes.js builds), with the schemas' defaults and
    required-field validation. Money is exact: balances, prices and transaction amounts are
    reals in Naira (the major unit); amounts reported by the payment gateway are integers in
    kobo (the minor unit). */
module Models {
  import opened Collections
  import Email

  /** Document identifiers (ObjectIds) are abstract. */
  type UserId = nat
  type ProductId = nat

  type Bytes = seq<bv8>

  /** The value JavaScript's Number() yields for a form field: NaN or a number. */
  datatype Numeric = NaN | Num(value: real)

  datatype User = User(id: UserId, email: string, passwordHash: string, walletBalance: real)

  datatype Product = Product(
    id: ProductId,
    name: string,
    description: string,
    price: real,
    imageUrl: string,
    country: string,
    platform: string,
    secretInfo: string,
    isSold: bool,
    buyer: Option<UserId>,
    createdAt: int)

  datatype OrderItem = OrderItem(product: string, quantity: nat, price: real, secretInfo: string)

  datatype Order = Order(user: UserId, items: seq<OrderItem>, total: real, status: string, createdAt: int)

  /** The status enum of a Transaction (models/Transaction.js:19). */
  datatype TxStatus = Initialized | Success | Failed

  /** What the gateway's verify call reports: a status word and an amount in kobo. */
  datatype VerifyData = VerifyData(status: string, amount: Option<int>)

  /** The `data` part of a webhook event. An absent reference is represented by "". */
  datatype ChargeData = ChargeData(reference: string, amount: Option<int>, customerEmail: Option<string>)

  /** The opaque provider payload a Transaction keeps as metadata. */
  datatype Metadata = VerifyMeta(verify: VerifyData) | EventMeta(charge: ChargeData)

  datatype Transaction = Transaction(
    reference: string,
    user: Option<UserId>,
    amount: real,
    status: TxStatus,
    metadata: Option<Metadata>,
    createdAt: int)

  /** The status a Transaction gets when none is given. */
  const DefaultStatus: TxStatus := Initialized

  /** User.create: the email is stored normalised, both email and passwordHash are required
      (an empty string fails a required check), and the balance starts at 0. */
  function NewUser(id: UserId, email: string, passwordHash: string): (r: Option<User>)
    ensures r.Some? <==> Email.Normalise(email) != "" && passwordHash != ""
    ensures r.Some? ==> r.value.id == id && r.value.passwordHash == passwordHash
    ensures r.Some? ==> r.value.email == Email.Normalise(email) && Email.IsNormalised(r.value.email)
    ensures r.Some? ==> r.value.walletBalance == 0.0
  {
    Email.NormaliseIdempotent(email);
    var stored := Email.Normalise(email);
    if stored == "" || passwordHash == "" then None
    else Some(User(id, stored, passwordHash, 0.0))
  }

  /** Product.create: no field is required; isSold and buyer take their defaults false and null,
      createdAt the creation time. */
  function NewProduct(id: ProductId, name: string, description: string, price: real, imageUrl: string,
                      country: string, platform: string, secretInfo: string, now: int): (r: Product)
    ensures !r.isSold && r.buyer.None? && r.createdAt == now
  {
    Product(id, name, description, price, imageUrl, country, platform, secretInfo, false, None, now)
  }

  /** Transaction.create: the reference is required, so a missing or empty one fails
      validation; an omitted status defaults to "initialized". */
  function NewTransaction(reference: Option<string>, user: Option<UserId>, amount: real,
                          status: Option<TxStatus>, metadata: Option<Metadata>, now: int): (r: Option<Transaction>)
    ensures r.Some? <==> reference.Some? && reference.value != ""
    ensures r.Some? ==> r.value.reference == reference.value && r.value.user == user && r.value.amount == amount
    ensures r.Some? && status.None? ==> r.value.status == Initialized
    ensures r.Some? && status.Some? ==> r.value.status == status.value
  {
    match reference
    case None => None
    case Some(ref) =>
      if ref == "" then None
      else Some(Transaction(ref, user, amount, match status case None => DefaultStatus case Some(st) => st, metadata, now))
  }

  /** `(amount || 0) / 100`: a gateway amount in kobo, converted to Naira, a missing amount as 0. */
  function Naira(kobo: Option<int>): (r: real)
    ensures kobo.None? ==> r == 0.0
    ensures kobo.Some? ==> r * 100.0 == kobo.value as real
  {
    match kobo
    case None => 0.0
    case Some(k) => k as real / 100.0
  }
}
