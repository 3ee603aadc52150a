/**
 Properties of sequences of handler calls: the top-up ledger (every balance
 moves exactly with the completed payments credited to it, and a completed
 payment never changes again) and the subuser quota (no sequence of account
 calls takes a parent above 10 subusers).
 */
module Runs {
  import opened Common
  import opened Coll
  import opened UserModel
  import opened Accounts
  import opened Payments
  import opened Admin

  // ---------------------------------------------------------------------------
  // The ledger
  // ---------------------------------------------------------------------------

  /** A payment's contribution to `uid`'s credited total: its amount once it is Completed. */
  function CreditedTo(uid: Id): Payment -> int {
    (p: Payment) => if p.status == Completed && p.userId == uid then p.amount else 0
  }

  /** The sum of the Completed payments owned by `uid`. */
  function Credited(payments: seq<Payment>, uid: Id): int {
    Sum(payments, CreditedTo(uid))
  }

  /** The balance `findById(uid)` would show, 0 when there is no such account. */
  function BalanceOf(users: seq<User>, uid: Id): int {
    match FindUser(users, uid)
    case None => 0
    case Some(i) => BalanceOr0(users[i])
  }

  /** What `uid` holds beyond what the completed top-ups paid in. */
  function Surplus(payments: seq<Payment>, users: seq<User>, uid: Id): int {
    BalanceOf(users, uid) - Credited(payments, uid)
  }

  /** Initiation never stores a Completed record and never touches an account. */
  lemma InitiateKeepsSurplus(payments: seq<Payment>, users: seq<User>, caller: Caller, req: TopUpRequest,
                             uuid: string, newId: Id, now: int, gw: GatewayResponse, uid: Id)
    ensures var r := InitiateTopUp(payments, caller, req, uuid, newId, now, gw);
      Surplus(r.payments, users, uid) == Surplus(payments, users, uid)
  {
    var r := InitiateTopUp(payments, caller, req, uuid, newId, now, gw);
    if r.reply.TopUpInitiated? || r.reply.TopUpGatewayFailed? {
      SumAppend(payments, r.reply.payment, CreditedTo(uid));
    }
  }

  /**
   A notification moves a balance and the credited total together: a
   success raises both the owner's balance and the owner's completed sum by
   the payment's amount; every other outcome moves neither.
   */
  lemma IpnKeepsSurplus(payments: seq<Payment>, users: seq<User>, ipn: Ipn, now: int, uid: Id)
    ensures var r := MomoIpn(payments, users, ipn, now);
      Surplus(r.payments, r.users, uid) == Surplus(payments, users, uid)
  {
    var r := MomoIpn(payments, users, ipn, now);
    if r.reply.IpnProcessed? {
      var k := IpnTarget(payments, ipn).value;
      var p := payments[k];
      if ipn.resultCode == Given(0) {
        var i := FindUser(users, p.userId).value;
        var owner := Credit(users[i], p.amount);
        SumUpdate(payments, k, CompletePayment(p, ipn, now), CreditedTo(uid));
        FirstIndexUpdate(users, i, owner, HasId(uid));
        if uid == p.userId {
          assert FindUser(users, uid) == Some(i);
        } else {
          match FindUser(users, uid)
          case None =>
          case Some(j) =>
            assert j != i;
            assert r.users[j] == users[j];
        }
      } else {
        SumUpdate(payments, k, FailPayment(p, ipn), CreditedTo(uid));
      }
    }
  }

  /** One call of a payment handler, with the inputs its environment supplies. */
  datatype PaymentCall =
    | Initiate(caller: Caller, req: TopUpRequest, uuid: string, newId: Id, now: int, gw: GatewayResponse)
    | Notify(ipn: Ipn, now: int)

  datatype Books = Books(payments: seq<Payment>, users: seq<User>)

  function ApplyPayment(b: Books, c: PaymentCall): Books {
    match c
    case Initiate(caller, req, uuid, newId, now, gw) =>
      Books(InitiateTopUp(b.payments, caller, req, uuid, newId, now, gw).payments, b.users)
    case Notify(ipn, now) =>
      var r := MomoIpn(b.payments, b.users, ipn, now);
      Books(r.payments, r.users)
  }

  function RunPayments(b: Books, calls: seq<PaymentCall>): Books
    decreases |calls|
  {
    if calls == [] then b else RunPayments(ApplyPayment(b, calls[0]), calls[1..])
  }

  /**
   Over any sequence of initiations and notifications, every account's
   balance changes by exactly the amounts of the payments that became
   Completed for it: no payment is credited twice and nothing else credits.
   */
  lemma {:induction false} LedgerInvariant(b: Books, calls: seq<PaymentCall>, uid: Id)
    ensures var e := RunPayments(b, calls);
      BalanceOf(e.users, uid) - BalanceOf(b.users, uid) == Credited(e.payments, uid) - Credited(b.payments, uid)
    decreases |calls|
  {
    if calls != [] {
      match calls[0] {
        case Initiate(caller, req, uuid, newId, now, gw) => InitiateKeepsSurplus(b.payments, b.users, caller, req, uuid, newId, now, gw, uid);
        case Notify(ipn, now) => IpnKeepsSurplus(b.payments, b.users, ipn, now, uid);
      }
      LedgerInvariant(ApplyPayment(b, calls[0]), calls[1..], uid);
    }
  }

  /** Records are only ever appended, and a Completed record is never changed again. */
  lemma {:induction false} CompletedIsFinal(b: Books, calls: seq<PaymentCall>)
    ensures |RunPayments(b, calls).payments| >= |b.payments|
    ensures forall j :: 0 <= j < |b.payments| && b.payments[j].status == Completed ==>
      RunPayments(b, calls).payments[j] == b.payments[j]
    decreases |calls|
  {
    if calls != [] {
      var b' := ApplyPayment(b, calls[0]);
      assert |b'.payments| >= |b.payments|;
      assert forall j :: 0 <= j < |b.payments| && b.payments[j].status == Completed ==> b'.payments[j] == b.payments[j];
      CompletedIsFinal(b', calls[1..]);
    }
  }

  // ---------------------------------------------------------------------------
  // The subuser quota
  // ---------------------------------------------------------------------------

  /** One call of a handler that writes accounts. */
  datatype AccountCall =
    | Register(email: string, password: Option<string>, newId: Id, hash: string -> string)
    | Upsert(req: SubuserRequest, newId: Id, hash: string -> string)
    | Remove(subuserId: string)
    | Profile(id: Option<string>, patch: ProfilePatch)
    | Suspend(userId: string)

  function ApplyAccount(users: seq<User>, c: AccountCall): seq<User> {
    match c
    case Register(email, password, newId, hash) => RegisterParent(users, email, password, newId, hash).users
    case Upsert(req, newId, hash) => CreateOrUpdateSubuser(users, req, newId, hash).users
    case Remove(subuserId) => DeleteSubuser(users, subuserId).users
    case Profile(id, patch) => UpdateUser(users, id, patch).users
    case Suspend(userId) => ToggleUserSuspension(users, userId).users
  }

  function RunAccounts(users: seq<User>, calls: seq<AccountCall>): seq<User>
    decreases |calls|
  {
    if calls == [] then users else RunAccounts(ApplyAccount(users, calls[0]), calls[1..])
  }

  /** Registration adds a parent, never a sub-account. */
  lemma RegisterKeepsSubuserCount(users: seq<User>, email: string, password: Option<string>, newId: Id,
                                  hash: string -> string, q: Id)
    ensures SubuserCount(RegisterParent(users, email, password, newId, hash).users, q) == SubuserCount(users, q)
  {
    var r := RegisterParent(users, email, password, newId, hash);
    if r.reply.Registered? {
      CountAppend(users, r.reply.user, OwnedSubuser(q));
    }
  }

  /** A profile update changes neither an account's role nor its creator. */
  lemma ProfileKeepsSubuserCount(users: seq<User>, id: Option<string>, patch: ProfilePatch, q: Id)
    ensures SubuserCount(UpdateUser(users, id, patch).users, q) == SubuserCount(users, q)
  {
    var r := UpdateUser(users, id, patch);
    if r.reply.ProfileUpdated? {
      var k := FindUser(users, CastId(id.value)).value;
      CountUpdate(users, k, r.reply.user, OwnedSubuser(q));
    }
  }

  /** A suspension toggle changes only the suspension flag. */
  lemma SuspendKeepsSubuserCount(users: seq<User>, userId: string, q: Id)
    ensures SubuserCount(ToggleUserSuspension(users, userId).users, q) == SubuserCount(users, q)
  {
    var r := ToggleUserSuspension(users, userId);
    if r.reply.Toggled? {
      var k := FindUser(users, CastId(userId)).value;
      CountUpdate(users, k, users[k].(isSuspended := !users[k].isSuspended), OwnedSubuser(q));
    }
  }

  /** No single account call takes a parent that is within the quota above it. */
  lemma AccountCallKeepsQuota(users: seq<User>, c: AccountCall, q: Id)
    requires SubuserCount(users, q) <= SubuserQuota
    ensures SubuserCount(ApplyAccount(users, c), q) <= SubuserQuota
  {
    match c
    case Register(email, password, newId, hash) => RegisterKeepsSubuserCount(users, email, password, newId, hash, q);
    case Upsert(req, newId, hash) => CreateOrUpdateKeepsQuota(users, req, newId, hash, q);
    case Remove(subuserId) => DeleteSubuserSparesOtherRoles(users, subuserId, Parent, q);
    case Profile(id, patch) => ProfileKeepsSubuserCount(users, id, patch, q);
    case Suspend(userId) => SuspendKeepsSubuserCount(users, userId, q);
  }

  /** Over any sequence of account calls, a parent within the quota stays within it. */
  lemma {:induction false} QuotaInvariant(users: seq<User>, calls: seq<AccountCall>, q: Id)
    requires SubuserCount(users, q) <= SubuserQuota
    ensures SubuserCount(RunAccounts(users, calls), q) <= SubuserQuota
    decreases |calls|
  {
    if calls != [] {
      AccountCallKeepsQuota(users, calls[0], q);
      QuotaInvariant(ApplyAccount(users, calls[0]), calls[1..], q);
    }
  }
}
