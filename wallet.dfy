/** The Wallet document (src/models/Wallet.ts) and the `$inc` updates the routes apply to it. */
module WalletModel {
  import opened Common

  /** One wallet per user. `balance` and `payoutWalletBalance` are the schema's fields; `principal`,
      `profit`, `referral` and `locked` are the undeclared buckets that the settlement, closure and
      strategy routes read (a missing bucket reads as 0). All amounts are in paise. */
  datatype Wallet = Wallet(
    userId: Id,
    balance: int,
    payoutWalletBalance: int,
    totalDeposited: int,
    totalWithdrawn: int,
    totalProfit: int,
    principal: int,
    profit: int,
    referral: int,
    locked: int)

  /** The schema's `min: 0` bounds; the three lifetime totals have none. */
  predicate ValidWallet(w: Wallet) {
    w.balance >= 0 && w.payoutWalletBalance >= 0
  }

  /** The wallet created at registration: every amount at its default of 0. */
  function NewWallet(uid: Id): (w: Wallet)
    ensures w.userId == uid && ValidWallet(w)
    ensures w.balance == 0 && w.payoutWalletBalance == 0
    ensures w.totalDeposited == 0 && w.totalWithdrawn == 0 && w.totalProfit == 0
    ensures w.principal + w.profit + w.referral + w.locked == 0
  {
    Wallet(uid, 0, 0, 0, 0, 0, 0, 0, 0, 0)
  }

  /** The fields a route's `$inc` may move. */
  datatype Delta = Delta(
    balance: int,
    payoutWalletBalance: int,
    totalDeposited: int,
    totalWithdrawn: int,
    totalProfit: int,
    profit: int)

  /** An increment that only adds: it cannot push a bounded field below zero. */
  predicate Crediting(d: Delta) {
    d.balance >= 0 && d.payoutWalletBalance >= 0
  }

  function ApplyDelta(w: Wallet, d: Delta): (r: Wallet)
    ensures r.userId == w.userId
    ensures r.principal == w.principal && r.referral == w.referral && r.locked == w.locked
    ensures Crediting(d) && ValidWallet(w) ==> ValidWallet(r)
  {
    w.(balance := w.balance + d.balance,
       payoutWalletBalance := w.payoutWalletBalance + d.payoutWalletBalance,
       totalDeposited := w.totalDeposited + d.totalDeposited,
       totalWithdrawn := w.totalWithdrawn + d.totalWithdrawn,
       totalProfit := w.totalProfit + d.totalProfit,
       profit := w.profit + d.profit)
  }

  /** The unique index on `userId`: no two wallets share an owner. */
  predicate UniqueOwners(ws: seq<Wallet>) {
    forall i, j :: 0 <= i < j < |ws| ==> ws[i].userId != ws[j].userId
  }

  lemma SameOwnerSameIndex(ws: seq<Wallet>, i: nat, j: nat)
    requires UniqueOwners(ws) && i < |ws| && j < |ws| && ws[i].userId == ws[j].userId
    ensures i == j
  {
  }

  predicate AllValid(ws: seq<Wallet>) {
    forall i :: 0 <= i < |ws| ==> ValidWallet(ws[i])
  }

  /** `Wallet.findOne({ userId })`: the position of the first wallet owned by `uid`. */
  function FindWallet(ws: seq<Wallet>, uid: Id): (r: Option<nat>)
    ensures r.Some? ==> r.value < |ws| && ws[r.value].userId == uid
    ensures r.Some? ==> forall j :: 0 <= j < r.value ==> ws[j].userId != uid
    ensures r.None? ==> forall j :: 0 <= j < |ws| ==> ws[j].userId != uid
  {
    if ws == [] then None
    else if ws[0].userId == uid then Some(0)
    else match FindWallet(ws[1..], uid)
      case None => None
      case Some(i) => Some(i + 1)
  }

  /** `Wallet.findOneAndUpdate({ userId }, { $inc })`: the wallet of `uid`, if any, moves by `d`;
      a missing wallet makes it a no-op. */
  function IncWallet(ws: seq<Wallet>, uid: Id, d: Delta): (r: seq<Wallet>)
    ensures |r| == |ws|
    ensures forall i :: 0 <= i < |ws| && ws[i].userId != uid ==> r[i] == ws[i]
    ensures UniqueOwners(ws) ==> forall i :: 0 <= i < |ws| && ws[i].userId == uid ==> r[i] == ApplyDelta(ws[i], d)
    ensures forall i :: 0 <= i < |ws| ==> r[i].userId == ws[i].userId
  {
    match FindWallet(ws, uid)
    case None => ws
    case Some(i) => ws[i := ApplyDelta(ws[i], d)]
  }

  /** Applying an increment never changes who owns which wallet. */
  lemma IncWalletKeepsOwners(ws: seq<Wallet>, uid: Id, d: Delta)
    requires UniqueOwners(ws)
    ensures UniqueOwners(IncWallet(ws, uid, d))
    ensures FindWallet(IncWallet(ws, uid, d), uid) == FindWallet(ws, uid)
  {
  }

  /** An adding increment keeps every wallet within its schema bounds. */
  lemma IncWalletKeepsValid(ws: seq<Wallet>, uid: Id, d: Delta)
    requires AllValid(ws) && Crediting(d)
    ensures AllValid(IncWallet(ws, uid, d))
  {
  }

  /** A `bulkWrite` of `updateOne` operations: one increment per op, in order. */
  datatype WalletOp = WalletOp(userId: Id, delta: Delta)

  function ApplyWalletOps(ws: seq<Wallet>, ops: seq<WalletOp>): (r: seq<Wallet>)
    ensures |r| == |ws|
    ensures forall i :: 0 <= i < |ws| ==> r[i].userId == ws[i].userId
    decreases |ops|
  {
    if ops == [] then ws
    else ApplyWalletOps(IncWallet(ws, ops[0].userId, ops[0].delta), ops[1..])
  }

  /** Each op names a different wallet owner. */
  predicate DistinctTargets(ops: seq<WalletOp>) {
    forall i, j :: 0 <= i < j < |ops| ==> ops[i].userId != ops[j].userId
  }

  /** The op of a batch that touches the wallet of `uid`, if any. */
  function OpFor(ops: seq<WalletOp>, uid: Id): (r: Option<nat>)
    ensures r.Some? ==> r.value < |ops| && ops[r.value].userId == uid
    ensures r.None? <==> forall k :: 0 <= k < |ops| ==> ops[k].userId != uid
  {
    if ops == [] then None
    else if ops[0].userId == uid then Some(0)
    else match OpFor(ops[1..], uid)
      case None => None
      case Some(k) => Some(k + 1)
  }

  /** A batch whose ops target distinct owners moves each wallet by exactly the op naming its owner,
      once, and leaves every other wallet as it was. */
  lemma {:induction false} ApplyWalletOpsEffect(ws: seq<Wallet>, ops: seq<WalletOp>, i: nat)
    requires UniqueOwners(ws) && DistinctTargets(ops) && i < |ws|
    ensures OpFor(ops, ws[i].userId).None? ==> ApplyWalletOps(ws, ops)[i] == ws[i]
    ensures OpFor(ops, ws[i].userId).Some? ==>
              ApplyWalletOps(ws, ops)[i] == ApplyDelta(ws[i], ops[OpFor(ops, ws[i].userId).value].delta)
    decreases |ops|
  {
    if ops != [] {
      var uid, tail := ws[i].userId, ops[1..];
      var ws' := IncWallet(ws, ops[0].userId, ops[0].delta);
      IncWalletKeepsOwners(ws, ops[0].userId, ops[0].delta);
      TailDistinct(ops);
      ApplyWalletOpsEffect(ws', tail, i);
      if uid == ops[0].userId {
        OpForHead(ops, uid);
      } else {
        OpForTail(ops, uid);
      }
    }
  }

  /** The rest of a batch with distinct targets has distinct targets. */
  lemma TailDistinct(ops: seq<WalletOp>)
    requires ops != [] && DistinctTargets(ops)
    ensures DistinctTargets(ops[1..])
  {
    forall a, b | 0 <= a < b < |ops| - 1 ensures ops[1..][a].userId != ops[1..][b].userId {
      assert ops[1..][a] == ops[a + 1] && ops[1..][b] == ops[b + 1];
    }
  }

  /** The first op of a batch with distinct targets is the only one for its owner. */
  lemma OpForHead(ops: seq<WalletOp>, uid: Id)
    requires ops != [] && DistinctTargets(ops) && ops[0].userId == uid
    ensures OpFor(ops, uid) == Some(0) && OpFor(ops[1..], uid).None?
  {
    forall k | 0 <= k < |ops| - 1 ensures ops[1..][k].userId != uid {
      assert ops[1..][k] == ops[k + 1];
    }
  }

  /** An owner the first op does not name has the same op in the rest of the batch. */
  lemma OpForTail(ops: seq<WalletOp>, uid: Id)
    requires ops != [] && ops[0].userId != uid
    ensures OpFor(ops, uid).None? <==> OpFor(ops[1..], uid).None?
    ensures OpFor(ops, uid).Some? ==> ops[OpFor(ops, uid).value] == ops[1..][OpFor(ops[1..], uid).value]
  {
  }

  /** A batch of adding increments keeps every wallet within its schema bounds and keeps the owners
      unique. */
  lemma {:induction false} ApplyWalletOpsKeepsValid(ws: seq<Wallet>, ops: seq<WalletOp>)
    requires UniqueOwners(ws) && AllValid(ws)
    requires forall k :: 0 <= k < |ops| ==> Crediting(ops[k].delta)
    ensures UniqueOwners(ApplyWalletOps(ws, ops)) && AllValid(ApplyWalletOps(ws, ops))
    decreases |ops|
  {
    if ops != [] {
      IncWalletKeepsOwners(ws, ops[0].userId, ops[0].delta);
      IncWalletKeepsValid(ws, ops[0].userId, ops[0].delta);
      ApplyWalletOpsKeepsValid(IncWallet(ws, ops[0].userId, ops[0].delta), ops[1..]);
    }
  }
}
