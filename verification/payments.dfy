/**
 Top-ups through the Momo gateway: initiation, the gateway's instant payment
 notification (IPN) that settles a payment and credits the owner's balance,
 the caller's history and the lookup of one payment.

 A payment moves from Pending to Completed or Failed. Completed is final:
 no handler changes a completed record again. The gateway call is not
 modelled; its response is a parameter, as are the fresh uuid, the new
 record's id and the current time.
 */
module Payments {
  import opened Common
  import opened Text
  import opened Coll
  import opened UserModel

  datatype PaymentStatus = Pending | Completed | Failed

  /** A payment record with the fields the controller writes. */
  datatype Payment = Payment(
    id: Id,
    userId: Id,
    amount: int,
    currency: string,
    paymentMethod: string,
    transactionId: string,
    orderInfo: string,
    status: PaymentStatus,
    gatewayTxnId: Option<string>,
    payUrl: Option<string>,
    failedReason: Option<string>,
    paymentDate: int,
    completedAt: Option<int>)

  const Momo := "Momo"
  const Currency := "VND"
  const OrderIdPrefix := "PAY_"
  const OrderInfoPrefix := "Nạp tiền vào tài khoản "
  const InitiationFailedDefault := "Momo initiation failed."
  const IpnFailedPrefix := "Momo failed with result code: "

  // ---------------------------------------------------------------------------
  // initiateTopUp
  // ---------------------------------------------------------------------------

  /** The authenticated caller: its id and optional username. */
  datatype Caller = Caller(id: Id, username: Option<string>)

  datatype TopUpRequest = TopUpRequest(amount: Option<int>, paymentMethod: Option<string>)

  /** What the gateway answers to a payment request. */
  datatype GatewayResponse = GatewayResponse(
    resultCode: Option<int>,
    requestId: Option<string>,
    payUrl: Option<string>,
    message: Option<string>)

  datatype TopUpReply =
    | TopUpMissingFields
    | TopUpUnsupportedMethod
    | TopUpInitiated(payment: Payment)
    | TopUpGatewayFailed(payment: Payment)
    | TopUpServerError
  {
    function Status(): nat {
      match this
      case TopUpMissingFields => 400
      case TopUpUnsupportedMethod => 400
      case TopUpInitiated(_) => 200
      case TopUpGatewayFailed(_) => 400
      case TopUpServerError => 500
    }
  }

  datatype TopUpStep = TopUpStep(payments: seq<Payment>, reply: TopUpReply)

  /** `amount` is present and positive (0 is falsy anyway) and a method is given. */
  predicate TopUpRequestComplete(req: TopUpRequest) {
    req.amount.Some? && req.amount.value > 0 && Truthy(req.paymentMethod)
  }

  /** The fields every new top-up record gets, whatever the gateway answers. */
  predicate DescribesTopUp(p: Payment, caller: Caller, amount: int, uuid: string, newId: Id, now: int) {
    && p.id == newId
    && p.userId == caller.id
    && p.amount == amount
    && p.currency == Currency
    && p.paymentMethod == Momo
    && p.transactionId == OrderIdPrefix + uuid
    && p.orderInfo == OrderInfoPrefix + OrElse(caller.username, caller.id) + " - " + p.transactionId
    && p.paymentDate == now
    && p.completedAt.None?
  }

  function PendingRecord(caller: Caller, amount: int, uuid: string, newId: Id, now: int): (p: Payment)
    ensures DescribesTopUp(p, caller, amount, uuid, newId, now)
    ensures p.status == Pending && p.gatewayTxnId.None? && p.payUrl.None? && p.failedReason.None?
  {
    var orderId := OrderIdPrefix + uuid;
    Payment(newId, caller.id, amount, Currency, Momo, orderId,
            OrderInfoPrefix + OrElse(caller.username, caller.id) + " - " + orderId,
            Pending, None, None, None, now, None)
  }

  /**
   Requests without a positive amount or a method, or with a method other
   than Momo, are refused before anything is written. Otherwise a Pending
   record is stored and the gateway's answer decides its fate: result code 0
   keeps it Pending with the gateway's request id and pay URL; anything else
   marks it Failed with the gateway's message or the default reason.
   */
  function InitiateTopUp(payments: seq<Payment>, caller: Caller, req: TopUpRequest, uuid: string,
                         newId: Id, now: int, gw: GatewayResponse): (r: TopUpStep)
    ensures r.reply.TopUpMissingFields? <==> !TopUpRequestComplete(req)
    ensures r.reply.TopUpUnsupportedMethod? <==> TopUpRequestComplete(req) && req.paymentMethod.value != Momo
    ensures !r.reply.TopUpServerError?
    ensures r.reply.TopUpInitiated? <==> TopUpRequestComplete(req) && req.paymentMethod.value == Momo && gw.resultCode == Some(0)
    ensures r.reply.TopUpInitiated? ==>
      && r.payments == payments + [r.reply.payment]
      && DescribesTopUp(r.reply.payment, caller, req.amount.value, uuid, newId, now)
      && r.reply.payment.status == Pending
      && r.reply.payment.gatewayTxnId == gw.requestId
      && r.reply.payment.payUrl == gw.payUrl
      && r.reply.payment.failedReason.None?
    ensures r.reply.TopUpGatewayFailed? ==>
      && r.payments == payments + [r.reply.payment]
      && DescribesTopUp(r.reply.payment, caller, req.amount.value, uuid, newId, now)
      && r.reply.payment.status == Failed
      && r.reply.payment.gatewayTxnId.None?
      && r.reply.payment.failedReason == Some(OrElse(gw.message, InitiationFailedDefault))
    ensures !r.reply.TopUpInitiated? && !r.reply.TopUpGatewayFailed? ==> r.payments == payments
  {
    if !TopUpRequestComplete(req) then TopUpStep(payments, TopUpMissingFields)
    else if req.paymentMethod.value != Momo then TopUpStep(payments, TopUpUnsupportedMethod)
    else
      var p := PendingRecord(caller, req.amount.value, uuid, newId, now);
      if gw.resultCode == Some(0) then
        var p' := p.(gatewayTxnId := gw.requestId, payUrl := gw.payUrl);
        TopUpStep(payments + [p'], TopUpInitiated(p'))
      else
        var p' := p.(status := Failed, failedReason := Some(OrElse(gw.message, InitiationFailedDefault)));
        TopUpStep(payments + [p'], TopUpGatewayFailed(p'))
  }

  // ---------------------------------------------------------------------------
  // momoIPN
  // ---------------------------------------------------------------------------

  /**
   The notification body; the amount it carries is ignored, the stored amount
   is credited. The result code may be missing, `null` or a number, and only
   the number 0 counts as success.
   */
  datatype Ipn = Ipn(orderId: string, requestId: string, resultCode: Field<int>,
                     message: Option<string>, transId: Option<string>)

  /** `{ transaction_id: orderId, gateway_transaction_id: requestId }` */
  function IpnKey(orderId: string, requestId: string): Payment -> bool {
    (p: Payment) => p.transactionId == orderId && p.gatewayTxnId == Some(requestId)
  }

  datatype IpnReply = IpnNotFound | IpnAlreadyProcessed | IpnProcessed | IpnServerError
  {
    function Status(): nat {
      match this
      case IpnNotFound => 404
      case IpnAlreadyProcessed => 200
      case IpnProcessed => 200
      case IpnServerError => 500
    }
  }

  datatype IpnStep = IpnStep(payments: seq<Payment>, users: seq<User>, reply: IpnReply)

  /** The result code as the template string renders it: "undefined", "null" or its decimal digits. */
  function ResultCodeText(code: Field<int>): string {
    match code
    case Absent => "undefined"
    case Null => "null"
    case Given(c) => IntToString(c)
  }

  function IpnFailureReason(ipn: Ipn): string {
    OrElse(ipn.message, IpnFailedPrefix + ResultCodeText(ipn.resultCode))
  }

  /** A balance, with a missing one read as 0. */
  function BalanceOr0(u: User): int {
    Coalesce(u.balance, 0)
  }

  /** Raising an account's balance by exactly `amount`; nothing else about the account changes. */
  function Credit(u: User, amount: int): (r: User)
    ensures r.(balance := u.balance) == u
    ensures BalanceOr0(r) == BalanceOr0(u) + amount
  {
    u.(balance := Some(BalanceOr0(u) + amount))
  }

  function CompletePayment(p: Payment, ipn: Ipn, now: int): Payment {
    p.(status := Completed, completedAt := Some(now), gatewayTxnId := ipn.transId)
  }

  function FailPayment(p: Payment, ipn: Ipn): Payment {
    p.(status := Failed, failedReason := Some(IpnFailureReason(ipn)))
  }

  /** The position of the payment an IPN is about, if any. */
  function IpnTarget(payments: seq<Payment>, ipn: Ipn): Option<nat> {
    FirstIndex(payments, IpnKey(ipn.orderId, ipn.requestId))
  }

  /**
   Settling a payment. Only a Completed record is guarded: a Failed one can
   still be completed by a later success. On success the record is completed,
   its gateway id is replaced by the gateway's transaction id, and the owner is
   credited the stored amount; both writes happen together or not at all (a
   missing owner, or one whose save fails validation, aborts the step).
   */
  function MomoIpn(payments: seq<Payment>, users: seq<User>, ipn: Ipn, now: int): (r: IpnStep)
    ensures |r.payments| == |payments| && |r.users| == |users|
    ensures r.reply.IpnNotFound? <==> forall j :: 0 <= j < |payments| ==> !IpnKey(ipn.orderId, ipn.requestId)(payments[j])
    ensures r.reply.IpnAlreadyProcessed? <==>
      IpnTarget(payments, ipn).Some? && payments[IpnTarget(payments, ipn).value].status == Completed
    ensures r.reply.IpnServerError? <==>
      && IpnTarget(payments, ipn).Some? && ipn.resultCode == Given(0)
      && var p := payments[IpnTarget(payments, ipn).value];
      && p.status != Completed
      && (FindUser(users, p.userId).None? || !ValidUser(Credit(users[FindUser(users, p.userId).value], p.amount)))
    ensures r.reply.IpnProcessed? && ipn.resultCode == Given(0) ==>
      && IpnTarget(payments, ipn).Some? && FindUser(users, payments[IpnTarget(payments, ipn).value].userId).Some?
      && var k := IpnTarget(payments, ipn).value;
      && var i := FindUser(users, payments[k].userId).value;
      && payments[k].status != Completed
      && ValidUser(Credit(users[i], payments[k].amount))
      && r.payments == payments[k := CompletePayment(payments[k], ipn, now)]
      && r.users == users[i := Credit(users[i], payments[k].amount)]
    ensures r.reply.IpnProcessed? && ipn.resultCode != Given(0) ==>
      && IpnTarget(payments, ipn).Some?
      && var k := IpnTarget(payments, ipn).value;
      && payments[k].status != Completed
      && r.payments == payments[k := FailPayment(payments[k], ipn)]
      && r.users == users
    ensures !r.reply.IpnProcessed? ==> r.payments == payments && r.users == users
    ensures forall j :: 0 <= j < |payments| && payments[j].status == Completed ==> r.payments[j] == payments[j]
  {
    match IpnTarget(payments, ipn)
    case None => IpnStep(payments, users, IpnNotFound)
    case Some(k) =>
      var p := payments[k];
      if p.status == Completed then IpnStep(payments, users, IpnAlreadyProcessed)
      else if ipn.resultCode == Given(0) then
        match FindUser(users, p.userId)
        case None => IpnStep(payments, users, IpnServerError)
        case Some(i) =>
          var owner := Credit(users[i], p.amount);
          if !ValidUser(owner) then IpnStep(payments, users, IpnServerError)
          else IpnStep(payments[k := CompletePayment(p, ipn, now)], users[i := owner], IpnProcessed)
      else IpnStep(payments[k := FailPayment(p, ipn)], users, IpnProcessed)
  }

  /** Order ids are fresh: no two payments share a transaction id. */
  ghost predicate UniqueOrderIds(payments: seq<Payment>) {
    forall i, j :: 0 <= i < j < |payments| ==> payments[i].transactionId != payments[j].transactionId
  }

  /**
   Delivering the same notification twice changes nothing the second time,
   so a payment is credited at most once. After a success the record's
   gateway id is the transaction id, so the replay is reported as not found
   unless the transaction id equals the request id.
   */
  lemma {:induction false} IpnReplayChangesNothing(payments: seq<Payment>, users: seq<User>, ipn: Ipn, now: int, later: int)
    requires UniqueOrderIds(payments)
    requires MomoIpn(payments, users, ipn, now).reply.IpnProcessed?
    ensures var s := MomoIpn(payments, users, ipn, now);
            var s' := MomoIpn(s.payments, s.users, ipn, later);
            s'.payments == s.payments && s'.users == s.users
    ensures var s := MomoIpn(payments, users, ipn, now);
            ipn.resultCode == Given(0) ==>
              MomoIpn(s.payments, s.users, ipn, later).reply
                == if ipn.transId == Some(ipn.requestId) then IpnAlreadyProcessed else IpnNotFound
  {
    var s := MomoIpn(payments, users, ipn, now);
    var k := IpnTarget(payments, ipn).value;
    var key := IpnKey(ipn.orderId, ipn.requestId);
    if ipn.resultCode == Given(0) {
      var p' := CompletePayment(payments[k], ipn, now);
      if ipn.transId == Some(ipn.requestId) {
        FirstIndexUpdate(payments, k, p', key);
      } else {
        forall j | 0 <= j < |s.payments| ensures !key(s.payments[j]) {
          if j != k {
            assert payments[j].transactionId != payments[k].transactionId;
          }
        }
      }
    } else {
      FirstIndexUpdate(payments, k, FailPayment(payments[k], ipn), key);
    }
  }

  /** A Failed payment is not final: a success notification for it completes it and credits its owner. */
  lemma FailedPaymentCanComplete(payments: seq<Payment>, users: seq<User>, ipn: Ipn, now: int)
    requires IpnTarget(payments, ipn).Some? && payments[IpnTarget(payments, ipn).value].status == Failed
    requires ipn.resultCode == Given(0)
    requires FindUser(users, payments[IpnTarget(payments, ipn).value].userId).Some?
    requires ValidUser(users[FindUser(users, payments[IpnTarget(payments, ipn).value].userId).value])
    ensures MomoIpn(payments, users, ipn, now).reply == IpnProcessed
    ensures MomoIpn(payments, users, ipn, now).payments[IpnTarget(payments, ipn).value].status == Completed
  {
  }

  // ---------------------------------------------------------------------------
  // getTopUpHistory, getPaymentById
  // ---------------------------------------------------------------------------

  /** `{ user_id, payment_method: 'Momo' }` */
  function OwnedMomo(caller: Id): Payment -> bool {
    (p: Payment) => p.userId == caller && p.paymentMethod == Momo
  }

  function PaymentDate(p: Payment): int {
    p.paymentDate
  }

  const DefaultHistoryLimit: int := 10

  /**
   The reply: the total, `limit` and `skip` as `parseInt` read them, and the
   page. A negative skip makes the server refuse the query (500).
   */
  datatype HistoryReply = HistoryFailed | HistoryPage(total: nat, limit: int, skip: int, data: seq<Payment>)
  {
    function Status(): nat {
      match this
      case HistoryFailed => 500
      case HistoryPage(_, _, _, _) => 200
    }
  }

  /** The caller's Momo payments, newest first: the list the history pages through. */
  function HistoryOrder(payments: seq<Payment>, caller: Id): (r: seq<Payment>)
    ensures |r| == Count(payments, OwnedMomo(caller))
    ensures SortedDesc(r, PaymentDate)
    ensures multiset(r) == multiset(Select(payments, OwnedMomo(caller)))
    ensures forall x :: x in r ==> x in payments && x.userId == caller && x.paymentMethod == Momo
  {
    var mine := Select(payments, OwnedMomo(caller));
    var sorted := SortDesc(mine, PaymentDate);
    assert |sorted| == |multiset(sorted)| == |mine|;
    assert forall x :: x in sorted ==> x in mine by {
      forall x | x in sorted ensures x in mine {
        assert x in multiset(sorted);
      }
    }
    sorted
  }

  /**
   When no two of the caller's Momo payments share a payment date, every
   newest-first arrangement of them is `HistoryOrder`: the history pages do
   not depend on how the database breaks ties.
   */
  lemma HistoryOrderIsDetermined(payments: seq<Payment>, caller: Id, o: seq<Payment>)
    requires multiset(o) == multiset(Select(payments, OwnedMomo(caller)))
    requires SortedDesc(o, PaymentDate)
    requires forall x, y ::
               (x in payments && y in payments && OwnedMomo(caller)(x) && OwnedMomo(caller)(y)
                && x.paymentDate == y.paymentDate) ==> x == y
    ensures o == HistoryOrder(payments, caller)
  {
    var h := HistoryOrder(payments, caller);
    forall x | x in o ensures x in payments && OwnedMomo(caller)(x) {
      assert x in multiset(o);
      assert x in h;
    }
    SortedDescIsUnique(o, h, PaymentDate);
  }

  /** The number of documents a `.limit(n)` returns: a negative limit asks for its magnitude in one batch. */
  function LimitMagnitude(n: int): (r: nat)
    ensures r == n || r == -n
  {
    if n < 0 then -n else n
  }

  /**
   The caller's Momo payments, newest first, `skip` then `limit` applied (a
   limit of 0 means none), with the total over all of them. The query values
   arrive as integers; a missing one takes its default.
   */
  function TopUpHistory(payments: seq<Payment>, caller: Id, limit: Option<int>, skip: Option<int>): (r: HistoryReply)
    ensures r.HistoryFailed? <==> Coalesce(skip, 0) < 0
    ensures r.HistoryPage? ==>
      && r.total == Count(payments, OwnedMomo(caller))
      && r.limit == Coalesce(limit, DefaultHistoryLimit) && r.skip == Coalesce(skip, 0)
      && r.data == Page(HistoryOrder(payments, caller), r.skip, LimitMagnitude(r.limit))
      && |r.data| == (if r.skip >= r.total then 0
                      else if r.limit == 0 || r.skip + LimitMagnitude(r.limit) >= r.total then r.total - r.skip
                      else LimitMagnitude(r.limit))
      && (forall x :: x in r.data ==> x in payments && x.userId == caller && x.paymentMethod == Momo)
      && SortedDesc(r.data, PaymentDate)
    ensures r.HistoryPage? && r.skip == 0 && (r.limit == 0 || LimitMagnitude(r.limit) >= r.total) ==>
      multiset(r.data) == multiset(Select(payments, OwnedMomo(caller)))
  {
    var lim := Coalesce(limit, DefaultHistoryLimit);
    var sk := Coalesce(skip, 0);
    if sk < 0 then HistoryFailed
    else
      var all := HistoryOrder(payments, caller);
      PageOfSorted(all, sk, LimitMagnitude(lim), PaymentDate);
      HistoryPage(|all|, lim, sk, Page(all, sk, LimitMagnitude(lim)))
  }

  /** With a non-negative limit and skip the reply is the page of the history order. */
  lemma HistoryDataIsPage(payments: seq<Payment>, caller: Id)
    ensures forall limit: nat, skip: nat ::
      && TopUpHistory(payments, caller, Some(limit), Some(skip)).HistoryPage?
      && TopUpHistory(payments, caller, Some(limit), Some(skip)).data == Page(HistoryOrder(payments, caller), skip, limit)
  {
  }

  /**
   Paging is consistent: the page of `n` at `skip` followed by the page of
   `m` right after it is the page of `n + m` at `skip`, so walking the pages
   visits every payment once, in order.
   */
  lemma HistoryPagesConcatenate(payments: seq<Payment>, caller: Id, skip: nat, n: nat, m: nat)
    requires n > 0 && m > 0
    ensures TopUpHistory(payments, caller, Some(n), Some(skip)).data
          + TopUpHistory(payments, caller, Some(m), Some(skip + n)).data
         == TopUpHistory(payments, caller, Some(n + m), Some(skip)).data
  {
    HistoryDataIsPage(payments, caller);
    PagesConcatenate(HistoryOrder(payments, caller), skip, n, m);
  }

  /** `{ _id, user_id, payment_method: 'Momo' }` */
  function OwnedMomoWithId(paymentId: Id, caller: Id): Payment -> bool {
    (p: Payment) => p.id == paymentId && p.userId == caller && p.paymentMethod == Momo
  }

  datatype PaymentLookup = PaymentFound(payment: Payment) | PaymentNotFound | PaymentLookupFailed
  {
    function Status(): nat {
      match this
      case PaymentFound(_) => 200
      case PaymentNotFound => 404
      case PaymentLookupFailed => 500
    }
  }

  /** Only the caller's own Momo payments are visible; an id that is not an ObjectId fails the query. */
  function GetPaymentById(payments: seq<Payment>, caller: Id, paymentId: string): (r: PaymentLookup)
    ensures r.PaymentLookupFailed? <==> !ValidObjectId(paymentId)
    ensures r.PaymentFound? ==>
      && ValidObjectId(paymentId)
      && r.payment in payments && r.payment.id == CastId(paymentId) && r.payment.userId == caller && r.payment.paymentMethod == Momo
    ensures r.PaymentNotFound? <==>
      && ValidObjectId(paymentId)
      && forall j :: 0 <= j < |payments| ==> !OwnedMomoWithId(CastId(paymentId), caller)(payments[j])
  {
    if !ValidObjectId(paymentId) then PaymentLookupFailed
    else match FirstIndex(payments, OwnedMomoWithId(CastId(paymentId), caller))
      case None => PaymentNotFound
      case Some(k) => PaymentFound(payments[k])
  }

  /**
   A stored top-up, whatever the gateway answered, is what its owner reads
   back under the new id, and no other caller can see it.
   */
  lemma InitiateThenGet(payments: seq<Payment>, caller: Caller, req: TopUpRequest, uuid: string,
                        newId: Id, now: int, gw: GatewayResponse, other: Id)
    requires IsObjectIdHex(newId)
    requires forall j :: 0 <= j < |payments| ==> payments[j].id != newId
    requires other != caller.id
    ensures var r := InitiateTopUp(payments, caller, req, uuid, newId, now, gw);
      r.reply.TopUpInitiated? || r.reply.TopUpGatewayFailed? ==>
        && GetPaymentById(r.payments, caller.id, newId) == PaymentFound(r.reply.payment)
        && GetPaymentById(r.payments, other, newId) == PaymentNotFound
  {
    var r := InitiateTopUp(payments, caller, req, uuid, newId, now, gw);
    if r.reply.TopUpInitiated? || r.reply.TopUpGatewayFailed? {
      CanonicalIdCastsToItself(newId);
      FirstIndexAppend(payments, r.reply.payment, OwnedMomoWithId(newId, caller.id));
      FirstIndexAppend(payments, r.reply.payment, OwnedMomoWithId(newId, other));
    }
  }

  /**
   Initiation and notification fit together: once the gateway accepts a
   request, its success notification for the order id `PAY_<uuid>` and the
   gateway's request id completes exactly the new record and credits its
   owner the amount asked for, provided the uuid is fresh.
   */
  lemma InitiateThenIpnCompletes(payments: seq<Payment>, users: seq<User>, caller: Caller, req: TopUpRequest,
                                 uuid: string, newId: Id, now: int, gw: GatewayResponse, ipn: Ipn, later: int)
    requires forall j :: 0 <= j < |payments| ==> payments[j].transactionId != OrderIdPrefix + uuid
    requires InitiateTopUp(payments, caller, req, uuid, newId, now, gw).reply.TopUpInitiated?
    requires gw.requestId.Some?
    requires ipn.orderId == OrderIdPrefix + uuid && ipn.requestId == gw.requestId.value && ipn.resultCode == Given(0)
    requires FindUser(users, caller.id).Some?
    requires ValidUser(Credit(users[FindUser(users, caller.id).value], req.amount.value))
    ensures var r := InitiateTopUp(payments, caller, req, uuid, newId, now, gw);
            var s := MomoIpn(r.payments, users, ipn, later);
            var i := FindUser(users, caller.id).value;
      && s.reply == IpnProcessed
      && s.payments == payments + [CompletePayment(r.reply.payment, ipn, later)]
      && s.payments[|payments|].status == Completed
      && BalanceOr0(s.users[i]) == BalanceOr0(users[i]) + req.amount.value
  {
    var r := InitiateTopUp(payments, caller, req, uuid, newId, now, gw);
    FirstIndexAppend(payments, r.reply.payment, IpnKey(ipn.orderId, ipn.requestId));
  }

  // ---------------------------------------------------------------------------
  // The code as written, where it departs from the behaviour above
  // ---------------------------------------------------------------------------

  /** The paths the initiation handler sets on a new payment. */
  const InitiationPaths: set<string> :=
    {"user_id", "amount", "currency", "payment_method", "transaction_id", "order_info", "status", "payment_date"}

  /** The paths the registered Payment schema declares, and those of them it requires. */
  const SchemaPaths: set<string> := {"userId", "amount", "createdAt"}
  const SchemaRequiredPaths: set<string> := {"userId", "amount"}

  /** Strict mode drops every undeclared path; validation then needs every required path to remain. */
  predicate SchemaAccepts(setPaths: set<string>) {
    SchemaRequiredPaths <= setPaths * SchemaPaths
  }

  /**
   `initiateTopUp` against the Payment schema as registered: the first save
   of the new record fails validation (`userId` is required but the handler
   sets `user_id`), the transaction is aborted and the reply is a 500.
   */
  function InitiateTopUpAsWritten(payments: seq<Payment>, caller: Caller, req: TopUpRequest, uuid: string,
                                  newId: Id, now: int, gw: GatewayResponse): (r: TopUpStep)
    ensures r.payments == payments
    ensures TopUpRequestComplete(req) && req.paymentMethod.value == Momo ==> r.reply == TopUpServerError
    ensures !TopUpRequestComplete(req) || req.paymentMethod.value != Momo ==>
      r == InitiateTopUp(payments, caller, req, uuid, newId, now, gw)
  {
    if !TopUpRequestComplete(req) || req.paymentMethod.value != Momo then
      InitiateTopUp(payments, caller, req, uuid, newId, now, gw)
    else if !SchemaAccepts(InitiationPaths) then TopUpStep(payments, TopUpServerError)
    else InitiateTopUp(payments, caller, req, uuid, newId, now, gw)
  }

  /**
   `(user.balance || 0) + payment.amount` as evaluated: a stored balance is a
   Decimal128 object, which is always truthy and has no numeric `valueOf`, so
   `+` appends the amount's digits to the balance's decimal string; the result
   is cast back to a Decimal128. Only a missing balance reads as 0.
   */
  function CreditedBalanceAsWritten(balance: Option<nat>, amount: nat): (r: nat)
    ensures balance.None? ==> r == amount
  {
    match balance
    case None => amount
    case Some(b) =>
      DigitsValueConcat(NatToString(b), NatToString(amount));
      DigitsValue(NatToString(b) + NatToString(amount))
  }

  /** Crediting a stored balance shifts it left by the amount's number of digits before adding. */
  lemma ConcatenatedCreditShiftsBalance(b: nat, amount: nat)
    ensures CreditedBalanceAsWritten(Some(b), amount) == b * Pow10(|NatToString(amount)|) + amount
  {
    DigitsValueConcat(NatToString(b), NatToString(amount));
    NatToStringRoundTrip(b);
    NatToStringRoundTrip(amount);
  }

  /**
   A first top-up of 50000 onto the default balance 0 gives 50000, as
   intended; a second one gives 5000050000 instead of 100000.
   */
  lemma ConcatenatedCreditCounterexample()
    ensures CreditedBalanceAsWritten(Some(0), 50000) == 50000
    ensures CreditedBalanceAsWritten(Some(50000), 50000) == 5000050000
    ensures CreditedBalanceAsWritten(Some(50000), 50000) != 50000 + 50000
  {
    ConcatenatedCreditShiftsBalance(0, 50000);
    ConcatenatedCreditShiftsBalance(50000, 50000);
    assert NatToString(50000) == "50000";
  }
}
