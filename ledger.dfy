/** The money-moving ledger and the account routes around it: one in-memory store holding the
    wallets, users, withdrawals, deposits, investments, transactions, notifications and
    profit-distribution records, and one method per route handler that checks its guards and then
    writes to the store. */
module LedgerRoutes {
  import opened Common
  import opened Money
  import opened Strings
  import opened WalletModel
  import opened Records
  import opened Distribution
  import opened Settlement
  import opened Sorting

  /** `z.number().min(1)` on a rupee amount: at least one rupee. */
  const MinAmount: int := Rupee

  /** A withdrawal's hold: the amount leaves `balance` and is counted in `totalWithdrawn` at once. */
  function Hold(w: Wallet, amount: int): (r: Wallet)
    ensures r.userId == w.userId
    ensures r.balance + r.totalWithdrawn == w.balance + w.totalWithdrawn
    ensures amount <= w.balance && ValidWallet(w) ==> ValidWallet(r)
  {
    w.(balance := w.balance - amount, totalWithdrawn := w.totalWithdrawn + amount)
  }

  function ApprovedWithdrawal(w: Withdrawal, remark: Option<string>, utr: string, now: int): Withdrawal {
    w.(status := WApproved, adminRemark := Some(OrDefault(remark, "Approved by Admin")),
       utrNumber := Some(utr), processedAt := Some(now))
  }

  function RejectedWithdrawal(w: Withdrawal, remark: Option<string>, now: int): Withdrawal {
    w.(status := WRejected, adminRemark := Some(OrDefault(remark, "Rejected by Admin")), processedAt := Some(now))
  }

  function ApprovalNotice(w: Withdrawal): Notification {
    Notification(w.userId, "Withdrawal Approved",
      "Your withdrawal of \U{20B9}" + AmountText(w.amount) + " has been successfully processed.")
  }

  function RejectionNotice(w: Withdrawal, remark: Option<string>): Notification {
    Notification(w.userId, "Withdrawal Rejected",
      "Your withdrawal request was rejected. Remark: " + OrDefault(remark, "N/A") + ". Refund initiated.")
  }

  /** The admin's `$inc` on approval: the amount is added to `totalWithdrawn` a second time. */
  function ApprovalDelta(w: Withdrawal): Delta {
    Delta(0, 0, 0, w.amount, 0, 0)
  }

  function ConfirmedDeposit(d: Deposit, paymentId: string, signature: string): Deposit {
    d.(status := DSuccess, paymentId := Some(paymentId), signature := Some(signature))
  }

  function DepositDelta(d: Deposit): Delta {
    Delta(d.amount, 0, d.amount, 0, 0, 0)
  }

  function DepositTransaction(id: Id, uid: Id, d: Deposit, orderId: string, now: int): Transaction {
    Transaction(id, uid, DepositTx, d.amount, None, Some(d.id), TSuccess,
                "Deposit via Razorpay (Order: " + orderId + ")", None, now)
  }

  /** A referral bonus: who receives it, how much, and whose deposit earned it. */
  datatype Bonus = Bonus(referrer: Id, amount: int, refereeName: string)

  /** The 1% referral bonus on a deposit of `amount` by user `uid`: paid when the depositor exists,
      was referred, and 1% of the amount rounds to at least one paisa. */
  function ReferralBonus(users: seq<User>, uid: Id, amount: nat): (r: Option<Bonus>)
    ensures r.Some? <==> FindUser(users, uid).Some? && users[FindUser(users, uid).value].referredBy.Some?
                         && RoundHalfUp(amount, 100) > 0
    ensures r.Some? ==> r.value.referrer == users[FindUser(users, uid).value].referredBy.value
    ensures r.Some? ==> r.value.amount == RoundHalfUp(amount, 100)
  {
    match FindUser(users, uid)
    case None => None
    case Some(j) =>
      var bonus := RoundHalfUp(amount, 100);
      if users[j].referredBy.Some? && bonus > 0 then Some(Bonus(users[j].referredBy.value, bonus, users[j].name))
      else None
  }

  function BonusDelta(b: Bonus): Delta {
    Delta(b.amount, 0, 0, 0, b.amount, 0)
  }

  function BonusTransaction(id: Id, b: Bonus, now: int): Transaction {
    Transaction(id, b.referrer, ReferralBonusTx, b.amount, None, None, TSuccess,
                "Referral Bonus (1%) from " + b.refereeName + "'s deposit", None, now)
  }

  /** The funds the closure guard counts: the four buckets, a missing one read as 0. */
  function ResidualFunds(w: Wallet): int {
    w.principal + w.profit + w.referral + w.locked
  }

  /** The closure guard on funds: the user has a wallet holding more than one rupee. The route's inner
      "more than half a rupee" test is implied by the outer one. */
  predicate HoldsFunds(ws: seq<Wallet>, uid: Id) {
    FindWallet(ws, uid).Some? && ResidualFunds(ws[FindWallet(ws, uid).value]) > Rupee
  }

  predicate HasActiveInvestment(invs: seq<Investment>, uid: Id) {
    exists k :: 0 <= k < |invs| && invs[k].userId == uid && invs[k].isActive && invs[k].amount > 0
  }

  function RequestedClosure(u: User, reason: Option<string>, now: int): User {
    u.(closureStatus := Requested, closureReason := reason, closureRequestedAt := Some(now))
  }

  /** The closure fields back at NONE and unset. */
  function ClearedClosure(u: User): User {
    u.(closureStatus := NoClosure, closureReason := None, closureRequestedAt := None)
  }

  function ClosedAccount(u: User): User {
    u.(closureStatus := Closed, status := Blocked)
  }

  /** A closure request followed by its cancellation puts the closure fields back as they were for a
      user who had none. */
  lemma RequestThenCancel(u: User, reason: Option<string>, now: int)
    requires u.closureStatus == NoClosure && u.closureReason.None? && u.closureRequestedAt.None?
    ensures ClearedClosure(RequestedClosure(u, reason, now)) == u
    ensures RequestedClosure(u, reason, now).closureStatus == Requested
  {
  }

  /** The referral code of a new user: the first (up to) three characters of the name in upper case,
      then the four random digits. */
  function ReferralCodeFor(name: string, digits: int): (r: string)
    requires 1000 <= digits <= 9999
    ensures var p := if |name| < 3 then |name| else 3;
            |r| == p + 4 && r[..p] == ToUpper(name[..p])
            && r[p..] == NatText(digits)
            && forall k :: p <= k < |r| ==> '0' <= r[k] <= '9'
  {
    var p := if |name| < 3 then |name| else 3;
    FourDigits(digits);
    var r := ToUpper(name[..p]) + NatText(digits);
    assert r[..p] == ToUpper(name[..p]) && r[p..] == NatText(digits);
    r
  }

  lemma FourDigits(n: int)
    requires 1000 <= n <= 9999
    ensures |NatText(n)| == 4
  {
    var a, b, c := n / 10, n / 100, n / 1000;
    assert 100 <= a <= 999 && 10 <= b <= 99 && 1 <= c <= 9;
    assert a / 10 == b && b / 10 == c;
    assert |NatText(c)| == 1;
    assert |NatText(b)| == |NatText(c)| + 1;
    assert |NatText(a)| == |NatText(b)| + 1;
    assert |NatText(n)| == |NatText(a)| + 1;
  }

  /** The referrer named by a sign-up: the holder of the supplied code, when one is supplied and some
      user holds it. */
  function Referrer(users: seq<User>, code: Option<string>): (r: Option<Id>)
    ensures r.Some? <==> !Blank(code) && FindByReferralCode(users, code.value).Some?
    ensures r.Some? ==> exists j :: 0 <= j < |users| && users[j].referralCode == code.value && users[j].id == r.value
  {
    if Blank(code) then None
    else match FindByReferralCode(users, code.value)
      case None => None
      case Some(j) => Some(users[j].id)
  }

  /** GET on the admins route: the users whose role is ADMIN, newest first. */
  function AdminsNewestFirst(users: seq<User>): (r: seq<User>)
    ensures |r| <= |users|
  {
    SortDesc(Filter(users, (u: User) => u.role == AdminRole), (u: User) => u.createdAt)
  }

  /** The admin listing holds exactly the admins, each as often as in the store, newest first. */
  lemma AdminsListing(users: seq<User>)
    ensures var r := AdminsNewestFirst(users);
            && (forall k :: 0 <= k < |r| ==> r[k].role == AdminRole)
            && (forall k :: 0 <= k < |users| && users[k].role == AdminRole ==> users[k] in r)
            && (forall u :: multiset(r)[u] == if u.role == AdminRole then multiset(users)[u] else 0)
            && (forall i, j :: 0 <= i < j < |r| ==> r[i].createdAt >= r[j].createdAt)
  {
    var admins := Filter(users, (u: User) => u.role == AdminRole);
    var r := AdminsNewestFirst(users);
    SortDescCorrect(admins, (u: User) => u.createdAt);
    FilterCounts(users, (u: User) => u.role == AdminRole);
    forall k | 0 <= k < |r|
      ensures r[k].role == AdminRole
    {
      assert r[k] in multiset(admins);
    }
    forall k | 0 <= k < |users| && users[k].role == AdminRole
      ensures users[k] in r
    {
      assert users[k] in multiset(admins);
    }
  }

  /** The ids `first`, `first + 1`, ... handed to the `n` withdrawals a settlement may create. */
  function FreshIds(first: Id, n: nat): (r: seq<Id>)
    ensures |r| == n && forall k :: 0 <= k < n ==> r[k] == first + k
  {
    seq(n, k requires 0 <= k < n => first + k)
  }
  /** The settlements the route computes over the store's wallets, the withdrawals numbered from
      `first` in the order the eligible wallets are listed. */
  function StoreSettlements(ws: seq<Wallet>, first: Id, users: seq<User>, minBalance: int): seq<Settled>
  {
    var el := SettlementEligible(ws, minBalance);
    Settlements(el, FreshIds(first, |el|), users, minBalance)
  }


  /** The transactions of those settlements, numbered after the withdrawal ids. */
  function StoreSettlementTransactions(ws: seq<Wallet>, first: Id, users: seq<User>, minBalance: int, now: int): seq<Transaction>
  {
    WithIds(SettlementTransactions(StoreSettlements(ws, first, users, minBalance), now), first + |SettlementEligible(ws, minBalance)|)
  }

  lemma PlannedTransactions(ws: seq<Wallet>, first: Id, users: seq<User>, minBalance: int, now: int,
                            eligible: seq<Wallet>, ids: seq<Id>, txOps: seq<Transaction>)
    requires eligible == SettlementEligible(ws, minBalance) && ids == FreshIds(first, |eligible|)
    requires txOps == SettlementTransactions(Settlements(eligible, ids, users, minBalance), now)
    ensures WithIds(txOps, first + |eligible|) == StoreSettlementTransactions(ws, first, users, minBalance, now)
  {
  }

  lemma FreshIdsDistinct(first: Id, n: nat)
    ensures DistinctIds(FreshIds(first, n))
  {
  }

  /** The wallets after a confirmed deposit: the depositor's wallet credited with the amount, then
      the referrer's wallet with the bonus when one is paid. */
  function DepositWallets(ws: seq<Wallet>, users: seq<User>, uid: Id, d: Deposit): (r: seq<Wallet>)
    ensures |r| == |ws| && forall i :: 0 <= i < |ws| ==> r[i].userId == ws[i].userId
  {
    var credited := IncWallet(ws, uid, DepositDelta(d));
    match ReferralBonus(users, uid, d.amount)
    case None => credited
    case Some(b) => IncWallet(credited, b.referrer, BonusDelta(b))
  }

  /** The transactions a confirmed deposit records: the DEPOSIT, then the REFERRAL_BONUS when a
      bonus is paid, numbered from `firstId`. */
  function DepositTransactions(users: seq<User>, uid: Id, d: Deposit, orderId: string, firstId: Id, now: int)
    : (r: seq<Transaction>)
    ensures |r| == if ReferralBonus(users, uid, d.amount).Some? then 2 else 1
  {
    var deposit := [DepositTransaction(firstId, uid, d, orderId, now)];
    match ReferralBonus(users, uid, d.amount)
    case None => deposit
    case Some(b) => deposit + [BonusTransaction(firstId + 1, b, now)]
  }

  lemma DepositKeepsValid(ws: seq<Wallet>, users: seq<User>, uid: Id, d: Deposit)
    requires UniqueOwners(ws) && AllValid(ws)
    ensures UniqueOwners(DepositWallets(ws, users, uid, d)) && AllValid(DepositWallets(ws, users, uid, d))
  {
    IncWalletKeepsOwners(ws, uid, DepositDelta(d));
    IncWalletKeepsValid(ws, uid, DepositDelta(d));
    var credited := IncWallet(ws, uid, DepositDelta(d));
    var bonus := ReferralBonus(users, uid, d.amount);
    if bonus.Some? {
      IncWalletKeepsOwners(credited, bonus.value.referrer, BonusDelta(bonus.value));
      IncWalletKeepsValid(credited, bonus.value.referrer, BonusDelta(bonus.value));
    }
  }

  /** Where a confirmed deposit's money lands: the depositor's balance and total deposited grow by
      the amount; the referrer's balance and total profit grow by the bonus; no other field of any
      wallet moves. */
  lemma DepositCredits(ws: seq<Wallet>, users: seq<User>, uid: Id, d: Deposit, i: nat)
    requires UniqueOwners(ws) && i < |ws|
    ensures var r := DepositWallets(ws, users, uid, d);
            var bonus := ReferralBonus(users, uid, d.amount);
            var toReferrer := if bonus.Some? && bonus.value.referrer == ws[i].userId then bonus.value.amount else 0;
            var toDepositor := if ws[i].userId == uid then d.amount else 0;
            && r[i].balance == ws[i].balance + toDepositor + toReferrer
            && r[i].totalDeposited == ws[i].totalDeposited + toDepositor
            && r[i].totalProfit == ws[i].totalProfit + toReferrer
            && r[i].totalWithdrawn == ws[i].totalWithdrawn && r[i].profit == ws[i].profit
            && r[i].userId == ws[i].userId && r[i].payoutWalletBalance == ws[i].payoutWalletBalance
            && r[i].principal == ws[i].principal && r[i].referral == ws[i].referral && r[i].locked == ws[i].locked
  {
    IncWalletKeepsOwners(ws, uid, DepositDelta(d));
  }

  /** The credits of a distribution over the store's wallets: every wallet with a positive balance
      takes part, in proportion to its balance. */
  function DistributionCredits(ws: seq<Wallet>, users: seq<User>, declared: int): (r: seq<Credit>)
    requires declared >= 0 && Eligible(ws) != []
    ensures PositiveNets(r)
  {
    var el := Eligible(ws);
    SumBalancePositive(el);
    Credits(el, users, declared, SumBalance(el))
  }

  lemma DistributionKeepsValid(ws: seq<Wallet>, cs: seq<Credit>)
    requires UniqueOwners(ws) && AllValid(ws) && PositiveNets(cs)
    ensures UniqueOwners(ApplyWalletOps(ws, CreditOps(cs))) && AllValid(ApplyWalletOps(ws, CreditOps(cs)))
  {
    var ops := CreditOps(cs);
    forall k | 0 <= k < |ops|
      ensures Crediting(ops[k].delta)
    {
      assert ops[k].delta == CreditDelta(cs[k]);
    }
    ApplyWalletOpsKeepsValid(ws, ops);
  }

  /** A settlement batch only moves profit into totalWithdrawn, so the wallet invariants hold after it. */
  lemma SettlementKeepsWalletsValid(ws: seq<Wallet>, ss: seq<Settled>)
    requires UniqueOwners(ws) && AllValid(ws)
    ensures UniqueOwners(ApplyWalletOps(ws, SettlementOps(ss))) && AllValid(ApplyWalletOps(ws, SettlementOps(ss)))
  {
    SettlementOpsIndex(ss);
    ApplyWalletOpsKeepsValid(ws, SettlementOps(ss));
  }

  /** The withdrawals a settlement over the store adds use fresh ids: each lies in
      `first .. first + |el| - 1`, none is already in the store, and no two are equal. */
  lemma SettlementIdsFresh(ws: seq<Wallet>, withdrawals: map<Id, Withdrawal>, users: seq<User>,
                           minBalance: int, first: Id, now: int)
    requires UniqueOwners(ws) && forall id :: id in withdrawals ==> id < first
    ensures var el := SettlementEligible(ws, minBalance);
            var ss := StoreSettlements(ws, first, users, minBalance);
            && (forall k :: 0 <= k < |ss| ==>
                  first <= ss[k].withdrawalId < first + |el| && ss[k].withdrawalId !in withdrawals)
            && (forall a, b :: 0 <= a < b < |ss| ==> ss[a].withdrawalId != ss[b].withdrawalId)
            && (forall id :: id in PutAll(withdrawals, SettlementWithdrawals(ss, now)) ==> id < first + |el|)
  {
    var el := SettlementEligible(ws, minBalance);
    var ids := FreshIds(first, |el|);
    var ss := Settlements(el, ids, users, minBalance);
    assert AboveMinimum(el, minBalance);
    SettlementEligibleUnique(ws, minBalance);
    FreshIdsDistinct(first, |el|);
    SettlementIdsDistinct(el, ids, users, minBalance);
    SettledIdsInRange(el, users, minBalance, first, ss);
    KeysStayBelow(withdrawals, ss, now, first + |el|);
  }

  /** Each settlement of a batch takes one of the fresh ids `first .. first + |el| - 1`. */
  lemma SettledIdsInRange(el: seq<Wallet>, users: seq<User>, minBalance: int, first: Id, ss: seq<Settled>)
    requires AboveMinimum(el, minBalance) && ss == Settlements(el, FreshIds(first, |el|), users, minBalance)
    ensures forall k :: 0 <= k < |ss| ==> first <= ss[k].withdrawalId < first + |el|
  {
    var ids := FreshIds(first, |el|);
    SettlementsSound(el, ids, users, minBalance);
    forall k | 0 <= k < |ss|
      ensures first <= ss[k].withdrawalId < first + |el|
    {
      assert ss[k] in ss;
      var i :| 0 <= i < |el| && FindUser(users, el[i].userId).Some?
               && ss[k] == SettlementOf(el[i], minBalance, ids[i]);
      assert ids[i] == first + i;
    }
  }

  /** Inserting withdrawals whose ids are below a bound into a store whose ids are below it. */
  lemma KeysStayBelow(withdrawals: map<Id, Withdrawal>, ss: seq<Settled>, now: int, bound: int)
    requires forall id :: id in withdrawals ==> id < bound
    requires forall k :: 0 <= k < |ss| ==> ss[k].withdrawalId < bound
    ensures forall id :: id in PutAll(withdrawals, SettlementWithdrawals(ss, now)) ==> id < bound
  {
    var entries := SettlementWithdrawals(ss, now);
    SettlementWithdrawalsIndex(ss, now);
    forall k | 0 <= k < |entries|
      ensures entries[k].0 < bound
    {
      assert entries[k].0 == ss[k].withdrawalId;
    }
    PutAllBelow(withdrawals, entries, bound);
  }

  /** What the withdrawals collection holds after a settlement over the store: every settled wallet's
      PENDING withdrawal of its net under its own id, and every earlier withdrawal as it was. */
  lemma SettlementWithdrawalsStored(ws: seq<Wallet>, withdrawals: map<Id, Withdrawal>, users: seq<User>,
                                    minBalance: int, first: Id, now: int, ss: seq<Settled>, r: map<Id, Withdrawal>)
    requires UniqueOwners(ws) && forall id :: id in withdrawals ==> id < first
    requires ss == StoreSettlements(ws, first, users, minBalance)
    requires r == PutAll(withdrawals, SettlementWithdrawals(ss, now))
    ensures && (forall k :: 0 <= k < |ss| ==>
                  ss[k].withdrawalId in r && r[ss[k].withdrawalId] == SettlementWithdrawal(ss[k], now))
            && (forall id :: id in withdrawals ==> id in r && r[id] == withdrawals[id])
            && (forall id :: id in r ==> id in withdrawals || exists k :: 0 <= k < |ss| && ss[k].withdrawalId == id)
  {
    SettlementIdsFresh(ws, withdrawals, users, minBalance, first, now);
    FreshSettlementsStored(withdrawals, ss, now);
  }

  /** Storing the withdrawals of settlements whose ids are pairwise distinct and new. */
  lemma FreshSettlementsStored(withdrawals: map<Id, Withdrawal>, ss: seq<Settled>, now: int)
    requires forall k :: 0 <= k < |ss| ==> ss[k].withdrawalId !in withdrawals
    requires forall a, b :: 0 <= a < b < |ss| ==> ss[a].withdrawalId != ss[b].withdrawalId
    ensures var r := PutAll(withdrawals, SettlementWithdrawals(ss, now));
            && (forall k :: 0 <= k < |ss| ==>
                  ss[k].withdrawalId in r && r[ss[k].withdrawalId] == SettlementWithdrawal(ss[k], now))
            && (forall id :: id in withdrawals ==> id in r && r[id] == withdrawals[id])
            && (forall id :: id in r ==> id in withdrawals || exists k :: 0 <= k < |ss| && ss[k].withdrawalId == id)
  {
    var entries := SettlementWithdrawals(ss, now);
    SettlementWithdrawalsIndex(ss, now);
    forall k | 0 <= k < |entries| ensures entries[k].0 !in withdrawals {
      assert entries[k].0 == ss[k].withdrawalId;
    }
    forall a, b | 0 <= a < b < |entries| ensures entries[a].0 != entries[b].0 {
      assert entries[a].0 == ss[a].withdrawalId && entries[b].0 == ss[b].withdrawalId;
    }
    PutAllFresh(withdrawals, entries);
    forall k | 0 <= k < |ss|
      ensures ss[k].withdrawalId in PutAll(withdrawals, entries)
      ensures PutAll(withdrawals, entries)[ss[k].withdrawalId] == SettlementWithdrawal(ss[k], now)
    {
      assert entries[k] == (ss[k].withdrawalId, SettlementWithdrawal(ss[k], now));
    }
    forall id | id in PutAll(withdrawals, entries) && id !in withdrawals
      ensures exists k :: 0 <= k < |ss| && ss[k].withdrawalId == id
    {
      var k :| 0 <= k < |entries| && entries[k].0 == id;
      assert ss[k].withdrawalId == id;
    }
  }

  /** A settlement over the store keeps it valid: the wallets stay valid with one owner each, and
      every withdrawal id it adds is one of the fresh ids starting at `first`. */
  lemma SettlementKeepsValid(ws: seq<Wallet>, withdrawals: map<Id, Withdrawal>, users: seq<User>,
                             minBalance: int, first: Id, now: int)
    requires UniqueOwners(ws) && AllValid(ws)
    requires forall id :: id in withdrawals ==> id < first
    ensures var el := SettlementEligible(ws, minBalance);
            var ss := StoreSettlements(ws, first, users, minBalance);
            && UniqueOwners(ApplyWalletOps(ws, SettlementOps(ss))) && AllValid(ApplyWalletOps(ws, SettlementOps(ss)))
            && forall id :: id in PutAll(withdrawals, SettlementWithdrawals(ss, now)) ==> id < first + |el|
  {
    var el := SettlementEligible(ws, minBalance);
    var ss := Settlements(el, FreshIds(first, |el|), users, minBalance);
    SettlementKeepsWalletsValid(ws, ss);
    SettlementIdsFresh(ws, withdrawals, users, minBalance, first, now);
  }

  /** What the distribution route reports. */
  datatype DistributionOutcome =
    | NoEligibleInvestors
    | Distributed(totalProfit: int, adminShare: real, userShare: real, recipients: nat)

  datatype SettlementStats = SettlementStats(count: nat, totalAmount: int)

  datatype DepositOutcome = AlreadyCredited | Credited

  datatype AdminOutcome = Upgraded | CreatedAdmin(id: Id)

  class Ledger {
    var wallets: seq<Wallet>
    var users: seq<User>
    var withdrawals: map<Id, Withdrawal>
    /** Deposits, by the payment gateway's order id. */
    var deposits: map<string, Deposit>
    var investments: seq<Investment>
    var transactions: seq<Transaction>
    var notifications: seq<Notification>
    var distributions: seq<ProfitDistribution>
    /** The next unused document id. */
    var nextId: Id

    /** The store's invariants: the unique indexes on wallet owner and user id, the schema's
        `min: 0` bounds, and every id in use below `nextId`. */
    ghost predicate Valid()
      reads this
    {
      && UniqueOwners(wallets) && AllValid(wallets)
      && UniqueUserIds(users)
      && (forall k :: 0 <= k < |users| ==> users[k].id < nextId)
      && (forall k :: 0 <= k < |wallets| ==> wallets[k].userId < nextId)
      && (forall id :: id in withdrawals ==> id < nextId)
    }

    constructor ()
      ensures Valid()
      ensures wallets == [] && users == [] && withdrawals == map[] && deposits == map[]
      ensures investments == [] && transactions == [] && notifications == [] && distributions == []
    {
      wallets, users, withdrawals, deposits := [], [], map[], map[];
      investments, transactions, notifications, distributions := [], [], [], [];
      nextId := 0;
    }

    /** POST /api/finance/withdraw. */
    method RequestWithdrawal(session: Option<Session>, amount: int, now: int) returns (r: Result<Id>)
      requires Valid()
      modifies this
      ensures Valid()
      ensures session.None? ==> r == Err(Unauthorized)
      ensures session.Some? && amount < MinAmount ==> r == Err(ValidationError)
      ensures session.Some? && amount >= MinAmount && FindWallet(old(wallets), session.value.userId).None?
              ==> r == Err(NotFound)
      ensures session.Some? && amount >= MinAmount && FindWallet(old(wallets), session.value.userId).Some?
              ==> (r.Ok? <==> old(wallets)[FindWallet(old(wallets), session.value.userId).value].balance >= amount)
      ensures session.Some? && amount >= MinAmount && FindWallet(old(wallets), session.value.userId).Some?
              && old(wallets)[FindWallet(old(wallets), session.value.userId).value].balance < amount
              ==> r == Err(Insufficient)
      ensures r.Err? ==> unchanged(this)
      ensures r.Ok? ==>
                var uid := session.value.userId;
                var i := FindWallet(old(wallets), uid).value;
                var wid := old(nextId);
                && r.value == wid && wid !in old(withdrawals)
                && wallets == old(wallets)[i := Hold(old(wallets)[i], amount)]
                && withdrawals == old(withdrawals)[wid := Withdrawal(uid, amount, WPending, None, None, None, now)]
                && transactions == old(transactions)
                   + [Transaction(wid + 1, uid, WithdrawalTx, amount, None, Some(wid), TPending, "Withdrawal Request", None, now)]
                && nextId == old(nextId) + 2
                && users == old(users) && deposits == old(deposits) && investments == old(investments)
                && notifications == old(notifications) && distributions == old(distributions)
    {
      if session.None? {
        return Err(Unauthorized);
      }
      if amount < MinAmount {
        return Err(ValidationError);
      }
      var uid := session.value.userId;
      var found := FindWallet(wallets, uid);
      if found.None? {
        return Err(NotFound);
      }
      var i := found.value;
      if wallets[i].balance < amount {
        return Err(Insufficient);
      }
      wallets := wallets[i := Hold(wallets[i], amount)];
      var wid := nextId;
      withdrawals := withdrawals[wid := Withdrawal(uid, amount, WPending, None, None, None, now)];
      transactions := transactions
        + [Transaction(wid + 1, uid, WithdrawalTx, amount, None, Some(wid), TPending, "Withdrawal Request", None, now)];
      nextId := nextId + 2;
      r := Ok(wid);
    }

    /** POST /api/admin/withdraw/manage. `serviceOk` is the outcome of the ledger service step,
        which is not part of this model. */
    method ManageWithdrawal(session: Option<Session>, withdrawalId: Id, action: string, remark: Option<string>,
                            utr: Option<string>, serviceOk: bool, now: int)
      returns (r: Result<WithdrawalStatus>)
      requires Valid()
      modifies this
      ensures Valid()
      ensures !IsAdmin(session) ==> r == Err(Unauthorized)
      ensures IsAdmin(session) && action != "APPROVE" && action != "REJECT" ==> r == Err(ValidationError)
      ensures IsAdmin(session) && action == "APPROVE" && (utr.None? || |utr.value| != 16) ==> r == Err(ValidationError)
      ensures IsAdmin(session) && (action == "REJECT" || (action == "APPROVE" && utr.Some? && |utr.value| == 16)) ==>
                if withdrawalId !in old(withdrawals) then r == Err(NotFound)
                else if old(withdrawals)[withdrawalId].status != WPending then r == Err(AlreadyProcessed)
                else if !serviceOk then r == Err(ServiceFailure)
                else r.Ok?
      ensures r.Err? ==> unchanged(this)
      ensures r.Ok? ==>
                var w := old(withdrawals)[withdrawalId];
                && withdrawalId in old(withdrawals) && w.status == WPending
                && users == old(users) && deposits == old(deposits) && investments == old(investments)
                && transactions == old(transactions) && distributions == old(distributions) && nextId == old(nextId)
                && (action == "APPROVE" ==>
                      && r.value == WApproved
                      && withdrawals == old(withdrawals)[withdrawalId := ApprovedWithdrawal(w, remark, utr.value, now)]
                      && wallets == IncWallet(old(wallets), w.userId, ApprovalDelta(w))
                      && notifications == old(notifications) + [ApprovalNotice(w)])
                && (action != "APPROVE" ==>
                      && r.value == WRejected
                      && withdrawals == old(withdrawals)[withdrawalId := RejectedWithdrawal(w, remark, now)]
                      && wallets == old(wallets)
                      && notifications == old(notifications) + [RejectionNotice(w, remark)])
    {
      if !IsAdmin(session) {
        return Err(Unauthorized);
      }
      if action != "APPROVE" && action != "REJECT" {
        return Err(ValidationError);
      }
      if action == "APPROVE" && (utr.None? || |utr.value| != 16) {
        return Err(ValidationError);
      }
      if withdrawalId !in withdrawals {
        return Err(NotFound);
      }
      var w := withdrawals[withdrawalId];
      if w.status != WPending {
        return Err(AlreadyProcessed);
      }
      if !serviceOk {
        return Err(ServiceFailure);
      }
      if action == "APPROVE" {
        withdrawals := withdrawals[withdrawalId := ApprovedWithdrawal(w, remark, utr.value, now)];
        IncWalletKeepsOwners(wallets, w.userId, ApprovalDelta(w));
        IncWalletKeepsValid(wallets, w.userId, ApprovalDelta(w));
        wallets := IncWallet(wallets, w.userId, ApprovalDelta(w));
        notifications := notifications + [ApprovalNotice(w)];
        r := Ok(WApproved);
      } else {
        withdrawals := withdrawals[withdrawalId := RejectedWithdrawal(w, remark, now)];
        notifications := notifications + [RejectionNotice(w, remark)];
        r := Ok(WRejected);
      }
    }

    /** POST /api/finance/deposit/verify. `isAuthentic` is the outcome of the gateway signature check,
        which is not part of this model. The caller's own wallet is credited. */
    method VerifyDeposit(session: Option<Session>, orderId: string, paymentId: string, signature: string,
                         isAuthentic: bool, now: int)
      returns (r: Result<DepositOutcome>)
      requires Valid()
      modifies this
      ensures Valid()
      ensures session.None? ==> r == Err(Unauthorized) && unchanged(this)
      ensures session.Some? && orderId !in old(deposits) ==> r == Err(NotFound) && unchanged(this)
      ensures session.Some? && orderId in old(deposits) && old(deposits)[orderId].status == DSuccess ==>
                r == Ok(AlreadyCredited) && unchanged(this)
      ensures session.Some? && orderId in old(deposits) && old(deposits)[orderId].status != DSuccess && !isAuthentic ==>
                && r == Err(ValidationError)
                && deposits == old(deposits)[orderId := old(deposits)[orderId].(status := DFailed)]
                && wallets == old(wallets) && users == old(users) && withdrawals == old(withdrawals)
                && investments == old(investments) && transactions == old(transactions)
                && notifications == old(notifications) && distributions == old(distributions) && nextId == old(nextId)
      ensures session.Some? && orderId in old(deposits) && old(deposits)[orderId].status != DSuccess && isAuthentic ==>
                var uid := session.value.userId;
                var d := old(deposits)[orderId];
                var txs := DepositTransactions(old(users), uid, d, orderId, old(nextId), now);
                && r == Ok(Credited)
                && deposits == old(deposits)[orderId := ConfirmedDeposit(d, paymentId, signature)]
                && wallets == DepositWallets(old(wallets), old(users), uid, d)
                && transactions == old(transactions) + txs
                && nextId == old(nextId) + |txs|
                && users == old(users) && withdrawals == old(withdrawals) && investments == old(investments)
                && notifications == old(notifications) && distributions == old(distributions)
    {
      if session.None? {
        return Err(Unauthorized);
      }
      if orderId !in deposits {
        return Err(NotFound);
      }
      var d := deposits[orderId];
      if d.status == DSuccess {
        return Ok(AlreadyCredited);
      }
      if !isAuthentic {
        deposits := deposits[orderId := d.(status := DFailed)];
        return Err(ValidationError);
      }
      var uid := session.value.userId;
      deposits := deposits[orderId := ConfirmedDeposit(d, paymentId, signature)];
      DepositKeepsValid(wallets, users, uid, d);
      wallets := DepositWallets(wallets, users, uid, d);
      var txs := DepositTransactions(users, uid, d, orderId, nextId, now);
      transactions := transactions + txs;
      nextId := nextId + |txs|;
      r := Ok(Credited);
    }

    /** POST /api/admin/distribute-profit, for a declared profit in paise. */
    method DistributeProfit(session: Option<Session>, declared: int, now: int) returns (r: Result<DistributionOutcome>)
      requires Valid()
      modifies this
      ensures Valid()
      ensures !IsAdmin(session) ==> r == Err(Unauthorized) && unchanged(this)
      ensures IsAdmin(session) && declared < MinAmount ==> r == Err(ValidationError) && unchanged(this)
      ensures IsAdmin(session) && declared >= MinAmount && Eligible(old(wallets)) == [] ==>
                r == Ok(NoEligibleInvestors) && unchanged(this)
      ensures IsAdmin(session) && declared >= MinAmount && Eligible(old(wallets)) != [] ==>
                var cs := DistributionCredits(old(wallets), old(users), declared);
                && r == Ok(Distributed(declared, AdminShare(declared), UserSharePool(declared), |cs|))
                && wallets == ApplyWalletOps(old(wallets), CreditOps(cs))
                && transactions == old(transactions) + WithIds(ProfitTransactions(cs, now), old(nextId))
                && notifications == old(notifications) + ProfitNotifications(cs)
                && distributions == old(distributions)
                   + [ProfitDistribution(declared, AdminShare(declared), UserSharePool(declared), |cs|, now)]
                && nextId == old(nextId) + |cs|
                && users == old(users) && withdrawals == old(withdrawals) && deposits == old(deposits)
                && investments == old(investments)
    {
      if !IsAdmin(session) {
        return Err(Unauthorized);
      }
      if declared < MinAmount {
        return Err(ValidationError);
      }
      if Eligible(wallets) == [] {
        return Ok(NoEligibleInvestors);
      }
      var recipients := RecordDistribution(declared, now);
      r := Ok(Distributed(declared, AdminShare(declared), UserSharePool(declared), recipients));
    }

    /** The writes of the distribution route once its guards pass: the planned credits applied to
        the wallets, their transactions and notifications added when there is at least one, and the
        distribution record added in any case. */
    method RecordDistribution(declared: int, now: int) returns (recipients: nat)
      requires Valid() && declared >= 0 && Eligible(wallets) != []
      modifies this
      ensures Valid()
      ensures var cs := DistributionCredits(old(wallets), old(users), declared);
              && recipients == |cs|
              && wallets == ApplyWalletOps(old(wallets), CreditOps(cs))
              && transactions == old(transactions) + WithIds(ProfitTransactions(cs, now), old(nextId))
              && notifications == old(notifications) + ProfitNotifications(cs)
              && distributions == old(distributions)
                 + [ProfitDistribution(declared, AdminShare(declared), UserSharePool(declared), |cs|, now)]
              && nextId == old(nextId) + |cs|
              && users == old(users) && withdrawals == old(withdrawals) && deposits == old(deposits)
              && investments == old(investments)
    {
      var eligible := Eligible(wallets);
      var total := SumBalance(eligible);
      SumBalancePositive(eligible);
      var walletOps, txOps, noteOps := PlanDistribution(eligible, users, declared, total, now);
      ghost var cs := DistributionCredits(wallets, users, declared);
      assert walletOps == CreditOps(cs) && |walletOps| == |cs|;
      DistributionKeepsValid(wallets, cs);
      ApplyCredits(walletOps, txOps, noteOps,
                   ProfitDistribution(declared, AdminShare(declared), UserSharePool(declared), |walletOps|, now));
      recipients := |walletOps|;
    }

    /** The bulk write of a distribution: the wallet increments, their transactions (numbered from
        `nextId`) and notifications when there is at least one increment, and the distribution
        record in any case. */
    method ApplyCredits(walletOps: seq<WalletOp>, txOps: seq<Transaction>, noteOps: seq<Notification>,
                        record: ProfitDistribution)
      requires Valid() && |txOps| == |walletOps| && |noteOps| == |walletOps|
      requires UniqueOwners(ApplyWalletOps(wallets, walletOps)) && AllValid(ApplyWalletOps(wallets, walletOps))
      modifies this
      ensures Valid()
      ensures wallets == ApplyWalletOps(old(wallets), walletOps)
      ensures transactions == old(transactions) + WithIds(txOps, old(nextId))
      ensures notifications == old(notifications) + noteOps
      ensures distributions == old(distributions) + [record]
      ensures nextId == old(nextId) + |walletOps|
      ensures users == old(users) && withdrawals == old(withdrawals) && deposits == old(deposits)
      ensures investments == old(investments)
    {
      if |walletOps| > 0 {
        wallets := ApplyWalletOps(wallets, walletOps);
        transactions := transactions + WithIds(txOps, nextId);
        notifications := notifications + noteOps;
      } else {
        assert transactions + WithIds(txOps, nextId) == transactions;
        assert notifications + noteOps == notifications;
      }
      nextId := nextId + |walletOps|;
      distributions := distributions + [record];
    }

    /** POST /api/admin/settle, for a minimum balance in paise. */
    method Settle(session: Option<Session>, minBalance: int, now: int) returns (r: Result<SettlementStats>)
      requires Valid()
      modifies this
      ensures Valid()
      ensures !IsAdmin(session) ==> r == Err(Unauthorized) && unchanged(this)
      ensures IsAdmin(session) && minBalance < 0 ==> r == Err(ServiceFailure) && unchanged(this)
      ensures IsAdmin(session) && minBalance >= 0 ==>
                var el := SettlementEligible(old(wallets), minBalance);
                var ss := StoreSettlements(old(wallets), old(nextId), old(users), minBalance);
                && r == Ok(SettlementStats(|ss|, SumNet(ss)))
                && wallets == ApplyWalletOps(old(wallets), SettlementOps(ss))
                && withdrawals == PutAll(old(withdrawals), SettlementWithdrawals(ss, now))
                && (forall k :: 0 <= k < |ss| ==>
                      ss[k].withdrawalId in withdrawals && withdrawals[ss[k].withdrawalId] == SettlementWithdrawal(ss[k], now))
                && (forall id :: id in old(withdrawals) ==> id in withdrawals && withdrawals[id] == old(withdrawals)[id])
                && transactions == old(transactions) + StoreSettlementTransactions(old(wallets), old(nextId), old(users), minBalance, now)
                && nextId == old(nextId) + |el| + |ss|
                && users == old(users) && deposits == old(deposits) && investments == old(investments)
                && notifications == old(notifications) && distributions == old(distributions)
    {
      if !IsAdmin(session) {
        return Err(Unauthorized);
      }
      // the schema parse throws and the route's catch answers 500
      if minBalance < 0 {
        return Err(ServiceFailure);
      }
      ghost var ws, stored, us, first := wallets, withdrawals, users, nextId;
      var count, total := RecordSettlement(minBalance, now);
      SettlementWithdrawalsStored(ws, stored, us, minBalance, first, now,
                                  StoreSettlements(ws, first, us, minBalance), withdrawals);
      r := Ok(SettlementStats(count, total));
    }

    /** The writes of the settlement route once its guards pass: the planned batch applied to the
        wallets, withdrawals and transactions when there is at least one settlement. */
    method RecordSettlement(minBalance: int, now: int) returns (count: nat, total: int)
      requires Valid()
      modifies this
      ensures Valid()
      ensures var ss := StoreSettlements(old(wallets), old(nextId), old(users), minBalance);
              && count == |ss| && total == SumNet(ss)
              && wallets == ApplyWalletOps(old(wallets), SettlementOps(ss))
              && withdrawals == PutAll(old(withdrawals), SettlementWithdrawals(ss, now))
      ensures transactions == old(transactions) + StoreSettlementTransactions(old(wallets), old(nextId), old(users), minBalance, now)
      ensures nextId == old(nextId) + |SettlementEligible(old(wallets), minBalance)| + count
      ensures users == old(users) && deposits == old(deposits) && investments == old(investments)
      ensures notifications == old(notifications) && distributions == old(distributions)
    {
      // Everything read from the store is read before the plan is computed.
      var ws, ledgerWithdrawals, txs, first, us := wallets, withdrawals, transactions, nextId, users;
      var eligible := SettlementEligible(ws, minBalance);
      var ids := FreshIds(first, |eligible|);
      SettlementKeepsValid(ws, ledgerWithdrawals, us, minBalance, first, now);
      var walletOps, withdrawalOps, txOps;
      walletOps, withdrawalOps, txOps, total := PlanSettlement(eligible, ids, us, minBalance, now);
      ghost var ss := StoreSettlements(ws, first, us, minBalance);
      assert |walletOps| == |ss| && |withdrawalOps| == |ss| && |txOps| == |ss|;
      PlannedTransactions(ws, first, us, minBalance, now, eligible, ids, txOps);
      ApplySettlements(ws, ledgerWithdrawals, txs, walletOps, withdrawalOps, txOps, first + |eligible|);
      count := |withdrawalOps|;
    }

    /** The bulk write of a settlement when it has at least one entry: the wallet decrements, the
        withdrawals under their fresh ids, and the transactions numbered from `firstTx`. */
    method ApplySettlements(ws: seq<Wallet>, ledgerWithdrawals: map<Id, Withdrawal>, txs: seq<Transaction>,
                            walletOps: seq<WalletOp>, withdrawalOps: seq<(Id, Withdrawal)>, txOps: seq<Transaction>,
                            firstTx: Id)
      requires Valid() && wallets == ws && withdrawals == ledgerWithdrawals && transactions == txs
      requires |withdrawalOps| == |walletOps| && |txOps| == |walletOps|
      requires UniqueOwners(ApplyWalletOps(ws, walletOps)) && AllValid(ApplyWalletOps(ws, walletOps))
      requires nextId <= firstTx && forall id :: id in PutAll(ledgerWithdrawals, withdrawalOps) ==> id < firstTx
      modifies this
      ensures Valid()
      ensures wallets == ApplyWalletOps(ws, walletOps)
      ensures withdrawals == PutAll(ledgerWithdrawals, withdrawalOps)
      ensures transactions == txs + WithIds(txOps, firstTx)
      ensures nextId == firstTx + |txOps|
      ensures users == old(users) && deposits == old(deposits) && investments == old(investments)
      ensures notifications == old(notifications) && distributions == old(distributions)
    {
      if |walletOps| > 0 {
        wallets := ApplyWalletOps(wallets, walletOps);
        withdrawals := PutAll(withdrawals, withdrawalOps);
        transactions := transactions + WithIds(txOps, firstTx);
      } else {
        assert withdrawalOps == [] && transactions + WithIds(txOps, firstTx) == transactions;
      }
      nextId := firstTx + |txOps|;
    }

    /** POST /api/user/close-account. */
    method RequestClosure(session: Option<Session>, reason: Option<string>, now: int) returns (r: Result<()>)
      requires Valid()
      modifies this
      ensures Valid()
      ensures session.None? ==> r == Err(Unauthorized)
      ensures session.Some? ==>
                var uid := session.value.userId;
                if HoldsFunds(old(wallets), uid) || HasActiveInvestment(old(investments), uid) then r == Err(OpenPositions)
                else if FindUser(old(users), uid).None? then r == Err(NotFound)
                else if old(users)[FindUser(old(users), uid).value].closureStatus == Requested then r == Err(AlreadyProcessed)
                else r.Ok?
      ensures r.Err? ==> unchanged(this)
      ensures r.Ok? ==>
                var i := FindUser(old(users), session.value.userId).value;
                && users == old(users)[i := RequestedClosure(old(users)[i], reason, now)]
                && wallets == old(wallets) && withdrawals == old(withdrawals) && deposits == old(deposits)
                && investments == old(investments) && transactions == old(transactions)
                && notifications == old(notifications) && distributions == old(distributions) && nextId == old(nextId)
    {
      if session.None? {
        return Err(Unauthorized);
      }
      var uid := session.value.userId;
      if HoldsFunds(wallets, uid) || HasActiveInvestment(investments, uid) {
        return Err(OpenPositions);
      }
      var found := FindUser(users, uid);
      if found.None? {
        return Err(NotFound);
      }
      var i := found.value;
      if users[i].closureStatus == Requested {
        return Err(AlreadyProcessed);
      }
      users := users[i := RequestedClosure(users[i], reason, now)];
      r := Ok(());
    }

    /** POST /api/user/cancel-closure. */
    method CancelClosure(session: Option<Session>) returns (r: Result<()>)
      requires Valid()
      modifies this
      ensures Valid()
      ensures session.None? ==> r == Err(Unauthorized)
      ensures session.Some? ==>
                var uid := session.value.userId;
                if FindUser(old(users), uid).None? then r == Err(NotFound)
                else if old(users)[FindUser(old(users), uid).value].closureStatus != Requested then r == Err(AlreadyProcessed)
                else r.Ok?
      ensures r.Err? ==> unchanged(this)
      ensures r.Ok? ==>
                var i := FindUser(old(users), session.value.userId).value;
                && users == old(users)[i := ClearedClosure(old(users)[i])]
                && wallets == old(wallets) && withdrawals == old(withdrawals) && deposits == old(deposits)
                && investments == old(investments) && transactions == old(transactions)
                && notifications == old(notifications) && distributions == old(distributions) && nextId == old(nextId)
    {
      if session.None? {
        return Err(Unauthorized);
      }
      var found := FindUser(users, session.value.userId);
      if found.None? {
        return Err(NotFound);
      }
      var i := found.value;
      if users[i].closureStatus != Requested {
        return Err(AlreadyProcessed);
      }
      users := users[i := ClearedClosure(users[i])];
      r := Ok(());
    }

    /** POST /api/admin/users/closure. */
    method DecideClosure(session: Option<Session>, userId: Option<Id>, action: Option<string>) returns (r: Result<()>)
      requires Valid()
      modifies this
      ensures Valid()
      ensures !IsAdmin(session) ==> r == Err(Unauthorized)
      ensures IsAdmin(session) && (userId.None? || Blank(action)) ==> r == Err(ValidationError)
      ensures IsAdmin(session) && userId.Some? && !Blank(action) ==>
                if FindUser(old(users), userId.value).None? then r == Err(NotFound)
                else if action.value != "APPROVE" && action.value != "REJECT" then r == Err(ValidationError)
                else r.Ok?
      ensures r.Err? ==> unchanged(this)
      ensures r.Ok? ==>
                var i := FindUser(old(users), userId.value).value;
                && (action.value == "APPROVE" ==> users == old(users)[i := ClosedAccount(old(users)[i])])
                && (action.value != "APPROVE" ==> users == old(users)[i := ClearedClosure(old(users)[i])])
                && wallets == old(wallets) && withdrawals == old(withdrawals) && deposits == old(deposits)
                && investments == old(investments) && transactions == old(transactions)
                && notifications == old(notifications) && distributions == old(distributions) && nextId == old(nextId)
    {
      if !IsAdmin(session) {
        return Err(Unauthorized);
      }
      if userId.None? || Blank(action) {
        return Err(ValidationError);
      }
      var found := FindUser(users, userId.value);
      if found.None? {
        return Err(NotFound);
      }
      var i := found.value;
      if action.value == "APPROVE" {
        users := users[i := ClosedAccount(users[i])];
      } else if action.value == "REJECT" {
        users := users[i := ClearedClosure(users[i])];
      } else {
        return Err(ValidationError);
      }
      r := Ok(());
    }

    /** POST /api/auth/register. `emailShaped` is the outcome of the schema's e-mail format check,
        `passwordHash` the hash computed outside the model and `digits` the random suffix of the
        referral code. */
    method Register(name: string, email: string, emailShaped: bool, password: string, passwordHash: string,
                    referralCode: Option<string>, digits: int, now: int)
      returns (r: Result<Id>)
      requires Valid() && 1000 <= digits <= 9999
      modifies this
      ensures Valid()
      ensures |name| < 2 || !emailShaped || |password| < 6 ==> r == Err(ValidationError)
      ensures |name| >= 2 && emailShaped && |password| >= 6 ==>
                if FindByEmail(old(users), email).Some? then r == Err(Conflict) else r.Ok?
      ensures r.Err? ==> unchanged(this)
      ensures r.Ok? ==>
                var id := old(nextId);
                var role := if |old(users)| == 0 then AdminRole else UserRole;
                && r.value == id
                && users == old(users) + [User(id, name, email, passwordHash, role, Active, ReferralCodeFor(name, digits),
                                               Referrer(old(users), referralCode), None, NoClosure, None, None, now)]
                && wallets == old(wallets) + [NewWallet(id)]
                && nextId == old(nextId) + 1
                && withdrawals == old(withdrawals) && deposits == old(deposits) && investments == old(investments)
                && transactions == old(transactions) && notifications == old(notifications)
                && distributions == old(distributions)
    {
      if |name| < 2 || !emailShaped || |password| < 6 {
        return Err(ValidationError);
      }
      if FindByEmail(users, email).Some? {
        return Err(Conflict);
      }
      var role := if |users| == 0 then AdminRole else UserRole;
      var code := ReferralCodeFor(name, digits);
      var referrer := Referrer(users, referralCode);
      var id := nextId;
      users := users + [User(id, name, email, passwordHash, role, Active, code, referrer, None, NoClosure, None, None, now)];
      wallets := wallets + [NewWallet(id)];
      nextId := nextId + 1;
      r := Ok(id);
    }

    /** POST /api/admin/admins. The route makes no caller check. */
    method CreateAdmin(name: Option<string>, email: Option<string>, password: Option<string>, passwordHash: string,
                       digits: int, now: int)
      returns (r: Result<AdminOutcome>)
      requires Valid() && 1000 <= digits <= 9999
      modifies this
      ensures Valid()
      ensures Blank(name) || Blank(email) || Blank(password) ==> r == Err(ValidationError)
      ensures !Blank(name) && !Blank(email) && !Blank(password) ==>
                match FindByEmail(old(users), email.value)
                case Some(i) => if old(users)[i].role == AdminRole then r == Err(AlreadyProcessed) else r == Ok(Upgraded)
                case None => r == Ok(CreatedAdmin(old(nextId)))
      ensures r.Err? ==> unchanged(this)
      ensures r == Ok(Upgraded) ==>
                var i := FindByEmail(old(users), email.value).value;
                && users == old(users)[i := old(users)[i].(role := AdminRole)]
                && nextId == old(nextId)
      ensures r.Ok? && r.value.CreatedAdmin? ==>
                && users == old(users) + [User(old(nextId), name.value, email.value, passwordHash, AdminRole, Active,
                                               "ADMIN" + NatText(digits), None, Some("COMPOUND"), NoClosure, None, None, now)]
                && nextId == old(nextId) + 1
      ensures r.Ok? ==>
                && wallets == old(wallets) && withdrawals == old(withdrawals) && deposits == old(deposits)
                && investments == old(investments) && transactions == old(transactions)
                && notifications == old(notifications) && distributions == old(distributions)
    {
      if Blank(name) || Blank(email) || Blank(password) {
        return Err(ValidationError);
      }
      var found := FindByEmail(users, email.value);
      if found.Some? {
        var i := found.value;
        if users[i].role == AdminRole {
          return Err(AlreadyProcessed);
        }
        users := users[i := users[i].(role := AdminRole)];
        return Ok(Upgraded);
      }
      var id := nextId;
      users := users + [User(id, name.value, email.value, passwordHash, AdminRole, Active,
                             "ADMIN" + NatText(digits), None, Some("COMPOUND"), NoClosure, None, None, now)];
      nextId := nextId + 1;
      r := Ok(CreatedAdmin(id));
    }
  }
}
