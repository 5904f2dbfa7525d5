/** Wallet funding through the payment gateway (routes/walletRoutes.js:139-312, the live code):
    initiating a payment, the browser callback after it, and the signed webhook. The gateway's
    HTTP calls, the HMAC-SHA512 signature and JSON parsing are inputs. As written, both
    confirmation paths credit the wallet whatever the Transaction's prior status was, so a
    repeated confirmation credits again. */
module Wallet {
  import opened Collections
  import opened Models
  import opened Ledger

  datatype FundOutcome = NotLoggedIn | InvalidAmount | InitFailed | Redirect(url: string)

  /** `!amount || amount < 1` rejects NaN, 0 and anything below 1. */
  predicate ValidAmount(amount: Numeric) {
    amount.Num? && amount.value >= 1.0
  }

  /** The Transaction a funding request records before it calls the gateway. */
  function PendingTransaction(reference: string, user: UserId, amount: real, now: int): Transaction {
    Transaction(reference, Some(user), amount, Initialized, None, now)
  }

  /** `POST /wallet/fund`. `reference` is the generated reference; creating a Transaction with a
      reference already in the table violates the unique index and fails like any other error.
      `authorizationUrl` is what the gateway's initialize call returns, None when it fails. */
  function Fund(s: State, amount: Numeric, reference: string, now: int, authorizationUrl: Option<string>): (r: (FundOutcome, State))
    ensures s.session.user.None? ==> r == (FundOutcome.NotLoggedIn, s)
    ensures s.session.user.Some? && !ValidAmount(amount) ==> r == (InvalidAmount, s)
    ensures s.session.user.Some? && ValidAmount(amount) && (reference == "" || TxIndex(s.transactions, reference).Some?) ==>
              r == (InitFailed, s)
    ensures r.1 != s ==>
              && s.session.user.Some? && ValidAmount(amount) && reference != ""
              && TxIndex(s.transactions, reference).None?
              && r.1 == s.(transactions := s.transactions + [PendingTransaction(reference, s.session.user.value.id, amount.value, now)])
              && r.0 == (if authorizationUrl.Some? then Redirect(authorizationUrl.value) else InitFailed)
    ensures r.0.Redirect? ==> r.1 != s && authorizationUrl == Some(r.0.url)
    // a valid request with a fresh reference records the Transaction before the gateway call,
    // and a failing gateway call leaves it recorded
    ensures s.session.user.Some? && ValidAmount(amount) && reference != "" && TxIndex(s.transactions, reference).None? ==>
              r == ((if authorizationUrl.Some? then Redirect(authorizationUrl.value) else InitFailed),
                    s.(transactions := s.transactions + [PendingTransaction(reference, s.session.user.value.id, amount.value, now)]))
  {
    if s.session.user.None? then (FundOutcome.NotLoggedIn, s)
    else if !ValidAmount(amount) then (InvalidAmount, s)
    else if TxIndex(s.transactions, reference).Some? then (InitFailed, s)
    else match NewTransaction(Some(reference), Some(s.session.user.value.id), amount.value, Some(Initialized), None, now)
      case None => (InitFailed, s)
      case Some(tx) =>
        var s1 := s.(transactions := s.transactions + [tx]);
        match authorizationUrl
        case None => (InitFailed, s1)
        case Some(url) => (Redirect(url), s1)
  }

  datatype CallbackOutcome = NotLoggedIn | NoReference | VerifyFailed | NotSuccessful | Funded

  /** `req.query.reference || req.query.ref`, with "" for an absent parameter. */
  function QueryReference(reference: string, ref: string): (r: string)
    ensures r == "" <==> reference == "" && ref == ""
  {
    if reference != "" then reference else ref
  }

  /** The Transaction update of a successful callback: findOneAndUpdate sets the status to
      success and stores the verify payload, whatever the status was; an unknown reference
      updates nothing. */
  function ConfirmTransaction(transactions: seq<Transaction>, reference: string, data: VerifyData): (r: seq<Transaction>)
    ensures TxIndex(transactions, reference).None? ==> r == transactions
    ensures TxIndex(transactions, reference).Some? ==>
              var i := TxIndex(transactions, reference).value;
              r == transactions[i := transactions[i].(status := Success, metadata := Some(VerifyMeta(data)))]
    ensures TransactionsValid(transactions) ==> TransactionsValid(r)
  {
    match TxIndex(transactions, reference)
    case None => transactions
    case Some(i) => transactions[i := transactions[i].(status := Success, metadata := Some(VerifyMeta(data)))]
  }

  /** `GET /wallet/callback`. `verify` is the gateway's verify response, None when that call
      fails. A successful verification credits the Transaction's own user (not the session's)
      by the verified amount in Naira, however often the same reference is confirmed. */
  function Callback(s: State, reference: string, ref: string, verify: Option<VerifyData>): (r: (CallbackOutcome, State))
    ensures s.session.user.None? ==> r == (CallbackOutcome.NotLoggedIn, s)
    ensures s.session.user.Some? && QueryReference(reference, ref) == "" ==> r == (NoReference, s)
    ensures s.session.user.Some? && QueryReference(reference, ref) != "" && verify.None? ==> r == (VerifyFailed, s)
    ensures s.session.user.Some? && QueryReference(reference, ref) != "" && verify.Some? && verify.value.status != "success" ==>
              r == (NotSuccessful, s)
    ensures s.session.user.Some? && QueryReference(reference, ref) != "" && verify.Some? && verify.value.status == "success" ==>
              var key := QueryReference(reference, ref);
              var ti := TxIndex(s.transactions, key);
              && r.0 == Funded
              && (ti.None? ==> r.1 == s)
              && (ti.Some? ==>
                    var tx := s.transactions[ti.value];
                    r.1 == s.(transactions := ConfirmTransaction(s.transactions, key, verify.value),
                              users := Credit(s.users, tx.user, Naira(verify.value.amount))))
  {
    if s.session.user.None? then (CallbackOutcome.NotLoggedIn, s)
    else
      var key := QueryReference(reference, ref);
      if key == "" then (NoReference, s)
      else match verify
        case None => (VerifyFailed, s)
        case Some(data) =>
          if data.status != "success" then (NotSuccessful, s)
          else match TxIndex(s.transactions, key)
            case None => (Funded, s)
            case Some(i) =>
              var tx := s.transactions[i];
              (Funded, s.(transactions := ConfirmTransaction(s.transactions, key, data),
                          users := Credit(s.users, tx.user, Naira(data.amount))))
  }

  /** A funding request keeps the invariant: the reference it records is new and non-empty. */
  lemma FundKeepsValid(s: State, amount: Numeric, reference: string, now: int, authorizationUrl: Option<string>)
    requires Valid(s)
    ensures Valid(Fund(s, amount, reference, now, authorizationUrl).1)
  {
  }

  /** A callback keeps the invariant: it only changes balances and confirms a Transaction. */
  lemma CallbackKeepsValid(s: State, reference: string, ref: string, verify: Option<VerifyData>)
    requires Valid(s)
    ensures Valid(Callback(s, reference, ref, verify).1)
  {
    var r := Callback(s, reference, ref, verify);
    if r.1 != s {
      var tx := s.transactions[TxIndex(s.transactions, QueryReference(reference, ref)).value];
      BalancesOnlyKeepValid(s.users, Credit(s.users, tx.user, Naira(verify.value.amount)));
    }
  }

  /** A webhook event: its name and its `data`. */
  datatype Event = Event(event: string, data: Option<ChargeData>)

  datatype WebhookOutcome = InvalidSignature | Acknowledged | ServerError

  /** The Transaction step of a `charge.success` event: an unknown reference creates a success
      Transaction with no user (None when the create fails validation), a known one that is not
      yet a success becomes one, and a success stays as it is. Yields the Transaction and the
      new table. */
  function RecordCharge(transactions: seq<Transaction>, data: ChargeData, now: int): (r: Option<(Transaction, seq<Transaction>)>)
    ensures TxIndex(transactions, data.reference).None? ==>
              if data.reference == "" then r.None?
              else
                var tx := Transaction(data.reference, None, Naira(data.amount), Success, Some(EventMeta(data)), now);
                r == Some((tx, transactions + [tx]))
    ensures TxIndex(transactions, data.reference).Some? ==>
              var i := TxIndex(transactions, data.reference).value;
              var tx := transactions[i];
              if tx.status == Success then r == Some((tx, transactions))
              else
                var tx' := tx.(status := Success, metadata := Some(EventMeta(data)));
                r == Some((tx', transactions[i := tx']))
    ensures r.Some? ==> r.value.0.status == Success && r.value.0.reference == data.reference
    ensures r.Some? && TransactionsValid(transactions) ==> TransactionsValid(r.value.1)
  {
    match TxIndex(transactions, data.reference)
    case None =>
      (match NewTransaction(Some(data.reference), None, Naira(data.amount), Some(Success), Some(EventMeta(data)), now)
       case None => None
       case Some(tx) => Some((tx, transactions + [tx])))
    case Some(i) =>
      var tx := transactions[i];
      if tx.status != Success then
        var tx' := tx.(status := Success, metadata := Some(EventMeta(data)));
        Some((tx', transactions[i := tx']))
      else Some((tx, transactions))
  }

  /** The credit step of a `charge.success` event, outside any status check: the Transaction's
      user if it has one, otherwise the user whose email matches the customer's, otherwise
      nobody. */
  function CreditCharge(users: seq<User>, tx: Transaction, customerEmail: Option<string>, amount: real): (r: seq<User>)
    ensures tx.user.Some? ==> r == Credit(users, tx.user, amount)
    ensures tx.user.None? && customerEmail.Some? && customerEmail.value != "" && UserIndexByEmail(users, customerEmail.value).Some? ==>
              r == Credit(users, Some(users[UserIndexByEmail(users, customerEmail.value).value].id), amount)
    ensures tx.user.None? && (customerEmail.None? || customerEmail.value == "" || UserIndexByEmail(users, customerEmail.value).None?) ==>
              r == users
    ensures |r| == |users| && forall j :: 0 <= j < |users| ==> SameAccount(r[j], users[j])
  {
    if tx.user.Some? then Credit(users, tx.user, amount)
    else match customerEmail
      case None => users
      case Some(email) =>
        if email == "" then users
        else match UserIndexByEmail(users, email)
          case None => users
          case Some(i) => Credit(users, Some(users[i].id), amount)
  }

  /** `POST /webhook/paystack`. `hmac` is HMAC-SHA512 under the shared secret, as a hex digest
      of the raw body; `parse` is JSON.parse of it (None when it throws). A bad signature is
      refused before anything changes; an event other than `charge.success` is acknowledged and
      changes nothing. */
  function Webhook(s: State, rawBody: Bytes, signature: Option<string>, hmac: Bytes -> string,
                   parse: Bytes -> Option<Event>, now: int): (r: (WebhookOutcome, State))
    ensures signature != Some(hmac(rawBody)) ==> r == (InvalidSignature, s)
    ensures r.0 != Acknowledged ==> r.1 == s
    ensures r.1 != s ==> signature == Some(hmac(rawBody)) && parse(rawBody).Some? && parse(rawBody).value.event == "charge.success"
    ensures signature == Some(hmac(rawBody)) && parse(rawBody).Some? && parse(rawBody).value.event == "charge.success"
            && parse(rawBody).value.data.Some? ==>
              var data := parse(rawBody).value.data.value;
              match RecordCharge(s.transactions, data, now)
              case None => r == (ServerError, s)
              case Some((tx, transactions)) =>
                r == (Acknowledged, s.(transactions := transactions,
                                       users := CreditCharge(s.users, tx, data.customerEmail, Naira(data.amount))))
    ensures r.1.products == s.products && r.1.orders == s.orders && r.1.session == s.session
    // any other event is answered 200 and changes nothing
    ensures signature == Some(hmac(rawBody)) && parse(rawBody).Some? && parse(rawBody).value.event != "charge.success" ==>
              r == (Acknowledged, s)
    // a body JSON.parse rejects, and a charge.success without data, are answered 500
    ensures signature == Some(hmac(rawBody)) && parse(rawBody).None? ==> r == (ServerError, s)
    ensures signature == Some(hmac(rawBody)) && parse(rawBody).Some? && parse(rawBody).value.event == "charge.success"
            && parse(rawBody).value.data.None? ==>
              r == (ServerError, s)
  {
    if signature != Some(hmac(rawBody)) then (InvalidSignature, s)
    else match parse(rawBody)
      case None => (ServerError, s)
      case Some(event) =>
        if event.event != "charge.success" then (Acknowledged, s)
        else match event.data
          // destructuring a missing `data` throws
          case None => (ServerError, s)
          case Some(data) =>
            match RecordCharge(s.transactions, data, now)
            case None => (ServerError, s)
            case Some((tx, transactions)) =>
              (Acknowledged, s.(transactions := transactions,
                                users := CreditCharge(s.users, tx, data.customerEmail, Naira(data.amount))))
  }

  /** A webhook delivery keeps the invariant: it only changes balances and records a charge. */
  lemma WebhookKeepsValid(s: State, rawBody: Bytes, signature: Option<string>, hmac: Bytes -> string,
                          parse: Bytes -> Option<Event>, now: int)
    requires Valid(s)
    ensures Valid(Webhook(s, rawBody, signature, hmac, parse, now).1)
  {
    var r := Webhook(s, rawBody, signature, hmac, parse, now);
    if r.1 != s {
      var data := parse(rawBody).value.data.value;
      var tx := RecordCharge(s.transactions, data, now).value.0;
      BalancesOnlyKeepValid(s.users, CreditCharge(s.users, tx, data.customerEmail, Naira(data.amount)));
    }
  }

  /** One successful callback for a reference whose Transaction belongs to user u: the
      Transaction still belongs to u and is a success, and u gains the verified amount. */
  lemma CallbackCreditsTxUser(s: State, reference: string, data: VerifyData, u: UserId, b: real)
    requires s.session.user.Some? && reference != "" && data.status == "success"
    requires TxUserOf(s.transactions, reference) == Some(u) && BalanceOf(s.users, u) == Some(b)
    ensures TxUserOf(Callback(s, reference, "", Some(data)).1.transactions, reference) == Some(u)
    ensures StatusOf(Callback(s, reference, "", Some(data)).1.transactions, reference) == Some(Success)
    ensures Callback(s, reference, "", Some(data)).1.session == s.session
    ensures BalanceOf(Callback(s, reference, "", Some(data)).1.users, u) == Some(b + Naira(data.amount))
  {
    var s1 := Callback(s, reference, "", Some(data)).1;
    assert s1.transactions == ConfirmTransaction(s.transactions, reference, data)
        && s1.users == Credit(s.users, Some(u), Naira(data.amount))
        && s1.session == s.session;
    ConfirmKeepsOwner(s.transactions, reference, data);
    CreditBalance(s.users, u, Naira(data.amount));
  }

  /** Confirming a known reference keeps the Transaction's owner and makes it a success. */
  lemma ConfirmKeepsOwner(transactions: seq<Transaction>, reference: string, data: VerifyData)
    requires TxIndex(transactions, reference).Some?
    ensures var r := ConfirmTransaction(transactions, reference, data);
            TxUserOf(r, reference) == TxUserOf(transactions, reference) && StatusOf(r, reference) == Some(Success)
  {
    var r := ConfirmTransaction(transactions, reference, data);
    SameReferencesSameIndex(transactions, r, reference);
  }

  /** Recording a charge for a known reference whose Transaction has an owner keeps that owner
      and leaves the Transaction a success. */
  lemma RecordKeepsOwner(transactions: seq<Transaction>, data: ChargeData, now: int)
    requires TxUserOf(transactions, data.reference).Some?
    ensures var r := RecordCharge(transactions, data, now);
            && r.Some? && r.value.0.user == TxUserOf(transactions, data.reference)
            && TxUserOf(r.value.1, data.reference) == TxUserOf(transactions, data.reference)
            && StatusOf(r.value.1, data.reference) == Some(Success)
  {
    var r := RecordCharge(transactions, data, now);
    SameReferencesSameIndex(transactions, r.value.1, data.reference);
  }

  /** A run of callbacks: each state is what the callback for the same reference and
      verification leaves behind in the one before it. */
  predicate IsCallbackRun(run: seq<State>, reference: string, data: VerifyData) {
    forall i {:trigger run[i]} :: 0 < i < |run| ==> run[i] == Callback(run[i - 1], reference, "", Some(data)).1
  }

  /** n credits of the same amount, added one at a time. */
  function Repeated(n: nat, amount: real): (r: real)
    ensures n == 0 ==> r == 0.0
  {
    if n == 0 then 0.0 else Repeated(n - 1, amount) + amount
  }

  lemma {:induction false} RepeatedIsProduct(n: nat, amount: real)
    ensures Repeated(n, amount) == n as real * amount
  {
    if n > 0 {
      RepeatedIsProduct(n - 1, amount);
      assert n as real * amount == (n - 1) as real * amount + amount;
    }
  }

  /** The callback credits again each time the same reference is confirmed: although the
      Transaction is a success after the first confirmation, the k-th state of a run of
      confirmations has credited its user k times the verified amount. */
  lemma {:induction false} CallbackReplayCredits(run: seq<State>, reference: string, data: VerifyData,
                                                 u: UserId, b: real, k: nat)
    requires IsCallbackRun(run, reference, data) && k < |run|
    requires run[0].session.user.Some? && reference != "" && data.status == "success"
    requires TxUserOf(run[0].transactions, reference) == Some(u) && BalanceOf(run[0].users, u) == Some(b)
    ensures TxUserOf(run[k].transactions, reference) == Some(u) && run[k].session == run[0].session
    ensures k > 0 ==> StatusOf(run[k].transactions, reference) == Some(Success)
    ensures BalanceOf(run[k].users, u) == Some(b + Repeated(k, Naira(data.amount)))
  {
    if k > 0 {
      CallbackReplayCredits(run, reference, data, u, b, k - 1);
      assert run[k] == Callback(run[k - 1], reference, "", Some(data)).1;
      CallbackCreditsTxUser(run[k - 1], reference, data, u, b + Repeated(k - 1, Naira(data.amount)));
    } else {
      assert b + Repeated(k, Naira(data.amount)) == b;
    }
  }

  /** One `charge.success` delivery for a reference whose Transaction belongs to user u: the
      Transaction still belongs to u and is a success, and u gains the amount. */
  lemma WebhookCreditsTxUser(s: State, rawBody: Bytes, hmac: Bytes -> string,
                             parse: Bytes -> Option<Event>, data: ChargeData, now: int, u: UserId, b: real)
    requires parse(rawBody) == Some(Event("charge.success", Some(data)))
    requires TxUserOf(s.transactions, data.reference) == Some(u) && BalanceOf(s.users, u) == Some(b)
    ensures TxUserOf(Webhook(s, rawBody, Some(hmac(rawBody)), hmac, parse, now).1.transactions, data.reference) == Some(u)
    ensures StatusOf(Webhook(s, rawBody, Some(hmac(rawBody)), hmac, parse, now).1.transactions, data.reference) == Some(Success)
    ensures Webhook(s, rawBody, Some(hmac(rawBody)), hmac, parse, now).1.session == s.session
    ensures BalanceOf(Webhook(s, rawBody, Some(hmac(rawBody)), hmac, parse, now).1.users, u) == Some(b + Naira(data.amount))
  {
    WebhookChargeShape(s, rawBody, hmac, parse, data, now);
    RecordKeepsOwner(s.transactions, data, now);
    CreditBalance(s.users, u, Naira(data.amount));
  }

  /** The state a signed `charge.success` event leaves for a Transaction that has a user. */
  lemma WebhookChargeShape(s: State, rawBody: Bytes, hmac: Bytes -> string,
                           parse: Bytes -> Option<Event>, data: ChargeData, now: int)
    requires parse(rawBody) == Some(Event("charge.success", Some(data)))
    requires TxUserOf(s.transactions, data.reference).Some?
    ensures RecordCharge(s.transactions, data, now).Some?
    ensures Webhook(s, rawBody, Some(hmac(rawBody)), hmac, parse, now).1 ==
            s.(transactions := RecordCharge(s.transactions, data, now).value.1,
               users := Credit(s.users, TxUserOf(s.transactions, data.reference), Naira(data.amount)))
  {
    RecordKeepsOwner(s.transactions, data, now);
  }

  /** A run of deliveries: each state is what the same signed event, delivered at the given
      time, leaves behind in the one before it. */
  predicate IsDeliveryRun(run: seq<State>, times: seq<int>, rawBody: Bytes, hmac: Bytes -> string,
                          parse: Bytes -> Option<Event>)
  {
    && |run| == |times| + 1
    && forall i {:trigger times[i]} :: 0 <= i < |times| ==>
         run[i + 1] == Webhook(run[i], rawBody, Some(hmac(rawBody)), hmac, parse, times[i]).1
  }

  /** A replayed `charge.success` event credits again each time it is delivered: although the
      Transaction is a success after the first delivery, k deliveries credit its user k times
      the amount. */
  lemma {:induction false} WebhookReplayCredits(run: seq<State>, times: seq<int>, rawBody: Bytes, hmac: Bytes -> string,
                                                parse: Bytes -> Option<Event>, data: ChargeData, u: UserId, b: real,
                                                k: nat)
    requires IsDeliveryRun(run, times, rawBody, hmac, parse) && k <= |times|
    requires parse(rawBody) == Some(Event("charge.success", Some(data)))
    requires TxUserOf(run[0].transactions, data.reference) == Some(u) && BalanceOf(run[0].users, u) == Some(b)
    ensures TxUserOf(run[k].transactions, data.reference) == Some(u)
    ensures k > 0 ==> StatusOf(run[k].transactions, data.reference) == Some(Success)
    ensures BalanceOf(run[k].users, u) == Some(b + Repeated(k, Naira(data.amount)))
  {
    if k > 0 {
      WebhookReplayCredits(run, times, rawBody, hmac, parse, data, u, b, k - 1);
      var prev, next := run[k - 1], run[k];
      var b' := b + Repeated(k - 1, Naira(data.amount));
      assert next == Webhook(prev, rawBody, Some(hmac(rawBody)), hmac, parse, times[k - 1]).1;
      WebhookCreditsTxUser(prev, rawBody, hmac, parse, data, times[k - 1], u, b');
      assert b' + Naira(data.amount) == b + Repeated(k, Naira(data.amount));
    } else {
      assert b + Repeated(k, Naira(data.amount)) == b;
    }
  }

  /** The funding scenario with both confirmations: a request for 2000 records an initialized
      Transaction; the `charge.success` event for 200000 kobo credits 2000; the callback that
      later verifies the same reference credits 2000 again, so the balance rises by 4000. */
  lemma FundThenBothConfirmations(s: State, reference: string, url: string, rawBody: Bytes,
                                  hmac: Bytes -> string, parse: Bytes -> Option<Event>, t0: int, t1: int,
                                  u: UserId, b: real)
    requires s.session.user.Some? && s.session.user.value.id == u && BalanceOf(s.users, u) == Some(b)
    requires reference != "" && TxIndex(s.transactions, reference).None?
    requires parse(rawBody) == Some(Event("charge.success", Some(ChargeData(reference, Some(200000), None))))
    ensures var s1 := Fund(s, Num(2000.0), reference, t0, Some(url)).1;
            var s2 := Webhook(s1, rawBody, Some(hmac(rawBody)), hmac, parse, t1).1;
            var s3 := Callback(s2, reference, "", Some(VerifyData("success", Some(200000)))).1;
            && s1.transactions == s.transactions + [PendingTransaction(reference, u, 2000.0, t0)]
            && BalanceOf(s2.users, u) == Some(b + 2000.0)
            && BalanceOf(s3.users, u) == Some(b + 4000.0)
  {
    var s1 := Fund(s, Num(2000.0), reference, t0, Some(url)).1;
    var ti := |s.transactions|;
    assert s1.transactions == s.transactions + [PendingTransaction(reference, u, 2000.0, t0)];
    assert s1.users == s.users && s1.session == s.session;
    TxIndexAppend(s.transactions, PendingTransaction(reference, u, 2000.0, t0));
    assert TxUserOf(s1.transactions, reference) == Some(u);
    assert Naira(Some(200000)) == 2000.0;
    WebhookCreditsTxUser(s1, rawBody, hmac, parse, ChargeData(reference, Some(200000), None), t1, u, b);
    var s2 := Webhook(s1, rawBody, Some(hmac(rawBody)), hmac, parse, t1).1;
    CallbackCreditsTxUser(s2, reference, VerifyData("success", Some(200000)), u, b + 2000.0);
  }
}
