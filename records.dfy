/** The documents the ledger routes read and write besides wallets: users, withdrawals, deposits,
    transactions, notifications and profit-distribution records. */
module Records {
  import opened Common

  /** The signed-in caller, as the session provides it. */
  datatype Session = Session(userId: Id, isAdmin: bool)

  predicate IsAdmin(session: Option<Session>) {
    session.Some? && session.value.isAdmin
  }

  datatype Role = AdminRole | UserRole
  datatype AccountStatus = Active | Blocked
  /** `closureStatus`: NONE, REQUESTED or CLOSED. */
  datatype ClosureStatus = NoClosure | Requested | Closed

  /** A user. The password is kept only as the hash computed outside the model. */
  datatype User = User(
    id: Id,
    name: string,
    email: string,
    passwordHash: string,
    role: Role,
    status: AccountStatus,
    referralCode: string,
    referredBy: Option<Id>,
    payoutPreference: Option<string>,
    closureStatus: ClosureStatus,
    closureReason: Option<string>,
    closureRequestedAt: Option<int>,
    createdAt: int)

  predicate UniqueUserIds(us: seq<User>) {
    forall i, j :: 0 <= i < j < |us| ==> us[i].id != us[j].id
  }

  /** `User.findById(id)`: the position of the user with that id. */
  function FindUser(us: seq<User>, id: Id): (r: Option<nat>)
    ensures r.Some? ==> r.value < |us| && us[r.value].id == id
    ensures r.None? ==> forall j :: 0 <= j < |us| ==> us[j].id != id
  {
    if us == [] then None
    else if us[0].id == id then Some(0)
    else match FindUser(us[1..], id)
      case None => None
      case Some(i) => Some(i + 1)
  }

  /** `User.findOne({ email })`. */
  function FindByEmail(us: seq<User>, email: string): (r: Option<nat>)
    ensures r.Some? ==> r.value < |us| && us[r.value].email == email
    ensures r.None? ==> forall j :: 0 <= j < |us| ==> us[j].email != email
  {
    if us == [] then None
    else if us[0].email == email then Some(0)
    else match FindByEmail(us[1..], email)
      case None => None
      case Some(i) => Some(i + 1)
  }

  /** `User.findOne({ referralCode })`. */
  function FindByReferralCode(us: seq<User>, code: string): (r: Option<nat>)
    ensures r.Some? ==> r.value < |us| && us[r.value].referralCode == code
    ensures r.None? ==> forall j :: 0 <= j < |us| ==> us[j].referralCode != code
  {
    if us == [] then None
    else if us[0].referralCode == code then Some(0)
    else match FindByReferralCode(us[1..], code)
      case None => None
      case Some(i) => Some(i + 1)
  }

  datatype WithdrawalStatus = WPending | WApproved | WRejected

  datatype Withdrawal = Withdrawal(
    userId: Id,
    amount: int,
    status: WithdrawalStatus,
    adminRemark: Option<string>,
    utrNumber: Option<string>,
    processedAt: Option<int>,
    createdAt: int)

  /** `bulkWrite` of `insertOne` operations on the withdrawals collection: each entry is stored under
      its id, in order. */
  function PutAll(m: map<Id, Withdrawal>, entries: seq<(Id, Withdrawal)>): (r: map<Id, Withdrawal>)
    ensures forall id :: id in r <==> id in m || exists k :: 0 <= k < |entries| && entries[k].0 == id
    decreases |entries|
  {
    if entries == [] then m
    else
      var tail := entries[1..];
      var r := PutAll(m[entries[0].0 := entries[0].1], tail);
      assert forall k :: 0 < k < |entries| ==> entries[k] == tail[k - 1];
      r
  }

  /** A key that no entry names keeps its old value under `PutAll`. */
  lemma {:induction false} PutAllKeeps(m: map<Id, Withdrawal>, entries: seq<(Id, Withdrawal)>, id: Id)
    requires id in m && forall k :: 0 <= k < |entries| ==> entries[k].0 != id
    ensures id in PutAll(m, entries) && PutAll(m, entries)[id] == m[id]
    decreases |entries|
  {
    if entries != [] {
      var tail := entries[1..];
      assert entries[0].0 != id;
      forall k | 0 <= k < |tail| ensures tail[k].0 != id {
        assert tail[k] == entries[k + 1];
      }
      PutAllKeeps(m[entries[0].0 := entries[0].1], tail, id);
    }
  }

  /** An entry that no later entry overwrites is stored as written: the last write wins. */
  lemma {:induction false} PutAllLastWrite(m: map<Id, Withdrawal>, entries: seq<(Id, Withdrawal)>, k: nat)
    requires k < |entries| && forall j :: k < j < |entries| ==> entries[j].0 != entries[k].0
    ensures entries[k].0 in PutAll(m, entries) && PutAll(m, entries)[entries[k].0] == entries[k].1
    decreases |entries|
  {
    var tail := entries[1..];
    var m' := m[entries[0].0 := entries[0].1];
    if k == 0 {
      forall j | 0 <= j < |tail| ensures tail[j].0 != entries[0].0 {
        assert tail[j] == entries[j + 1];
      }
      PutAllKeeps(m', tail, entries[0].0);
    } else {
      assert tail[k - 1] == entries[k];
      forall j | k - 1 < j < |tail| ensures tail[j].0 != tail[k - 1].0 {
        assert tail[j] == entries[j + 1];
      }
      PutAllLastWrite(m', tail, k - 1);
    }
  }

  /** Writing entries with pairwise distinct keys that are all new: each entry is stored as written
      and every old key keeps its value. */
  lemma PutAllFresh(m: map<Id, Withdrawal>, entries: seq<(Id, Withdrawal)>)
    requires forall k :: 0 <= k < |entries| ==> entries[k].0 !in m
    requires forall a, b :: 0 <= a < b < |entries| ==> entries[a].0 != entries[b].0
    ensures forall k :: 0 <= k < |entries| ==>
              entries[k].0 in PutAll(m, entries) && PutAll(m, entries)[entries[k].0] == entries[k].1
    ensures forall id :: id in m ==> id in PutAll(m, entries) && PutAll(m, entries)[id] == m[id]
  {
    forall k | 0 <= k < |entries|
      ensures entries[k].0 in PutAll(m, entries) && PutAll(m, entries)[entries[k].0] == entries[k].1
    {
      PutAllLastWrite(m, entries, k);
    }
    forall id | id in m ensures id in PutAll(m, entries) && PutAll(m, entries)[id] == m[id] {
      PutAllKeeps(m, entries, id);
    }
  }

  /** Writing entries whose keys are below a bound into a map whose keys are below it keeps every
      key below it. */
  lemma PutAllBelow(m: map<Id, Withdrawal>, entries: seq<(Id, Withdrawal)>, bound: int)
    requires forall id :: id in m ==> id < bound
    requires forall k :: 0 <= k < |entries| ==> entries[k].0 < bound
    ensures forall id :: id in PutAll(m, entries) ==> id < bound
  {
  }

  datatype DepositStatus = DPending | DSuccess | DFailed

  /** A deposit, created when the payment order was opened (outside this model) and looked up by
      its gateway order id. */
  datatype Deposit = Deposit(
    id: Id,
    userId: Id,
    amount: nat,
    status: DepositStatus,
    paymentId: Option<string>,
    signature: Option<string>)

  datatype TxKind = DepositTx | WithdrawalTx | ProfitTx | ReferralBonusTx
  datatype TxStatus = TPending | TSuccess | TFailed | TRejected

  /** A ledger entry. `taxDeducted` is None when the route does not set it. */
  datatype Transaction = Transaction(
    id: Id,
    userId: Id,
    kind: TxKind,
    amount: int,
    taxDeducted: Option<int>,
    referenceId: Option<Id>,
    status: TxStatus,
    description: string,
    utrNumber: Option<string>,
    createdAt: int)

  /** `insertMany` of a batch of new transactions: each gets the next fresh id, in order. */
  function WithIds(txs: seq<Transaction>, firstId: Id): (r: seq<Transaction>)
    ensures |r| == |txs|
    ensures forall k :: 0 <= k < |txs| ==> r[k] == txs[k].(id := firstId + k)
  {
    seq(|txs|, k requires 0 <= k < |txs| => txs[k].(id := firstId + k))
  }

  /** An investment position; only the fields the closure guard reads. */
  datatype Investment = Investment(userId: Id, isActive: bool, amount: int)

  datatype Notification = Notification(userId: Id, title: string, message: string)

  /** The audit row of one profit distribution. The shares are halves of a paise amount and so are
      kept exactly, as reals. */
  datatype ProfitDistribution = ProfitDistribution(
    totalProfit: int,
    adminShare: real,
    userShare: real,
    distributedToUserCount: nat,
    distributionDate: int)
}
