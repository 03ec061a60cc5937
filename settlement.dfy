/** The quarterly settlement of src/app/api/admin/settle/route.ts: every wallet whose profit
    exceeds the minimum balance has the excess moved out into a PENDING withdrawal, less a 1% cess
    above 50000 rupees. */
module Settlement {
  import opened Common
  import opened Money
  import opened Strings
  import opened WalletModel
  import opened Records

  /** The cess applies to a gross amount strictly above 50000 rupees. */
  const SurchargeThreshold: int := 50000 * Rupee

  /** The wallets the route finds: `profit > minBalance`, in store order. */
  function SettlementEligible(ws: seq<Wallet>, minBalance: int): (r: seq<Wallet>)
    ensures forall w :: w in r <==> w in ws && w.profit > minBalance
    ensures forall k :: 0 <= k < |r| ==> r[k].profit > minBalance
  {
    if ws == [] then []
    else if ws[0].profit > minBalance then [ws[0]] + SettlementEligible(ws[1..], minBalance)
    else SettlementEligible(ws[1..], minBalance)
  }

  lemma {:induction false} SettlementEligibleUnique(ws: seq<Wallet>, minBalance: int)
    requires UniqueOwners(ws)
    ensures UniqueOwners(SettlementEligible(ws, minBalance))
  {
    if ws != [] {
      SettlementEligibleUnique(ws[1..], minBalance);
      var rest := SettlementEligible(ws[1..], minBalance);
      forall k | 0 <= k < |rest|
        ensures rest[k].userId != ws[0].userId
      {
        assert rest[k] in ws[1..];
      }
    }
  }

  /** The 1% cess: nothing up to and including 50000 rupees; above it, the paise amount nearest to a
      hundredth of the gross, which is positive and less than the gross. */
  function Surcharge(gross: int): (r: int)
    ensures gross <= SurchargeThreshold ==> r == 0
    ensures gross > SurchargeThreshold ==> 200 * r <= 2 * gross + 100 < 200 * r + 200
    ensures gross > SurchargeThreshold ==> 0 < r < gross
  {
    if gross > SurchargeThreshold then
      RoundHalfUpNearest(gross, 100);
      RoundHalfUp(gross, 100)
    else 0
  }

  /** One settled wallet: the excess taken out (gross), the cess, the net paid, and the id of the
      withdrawal created for it. */
  datatype Settled = Settled(userId: Id, gross: int, surcharge: int, net: int, withdrawalId: Id)

  /** The settlement of an eligible wallet: the gross is the profit above the minimum balance and the
      net is always positive, so the route's `netAmount > 0` guard never skips a wallet. */
  function SettlementOf(w: Wallet, minBalance: int, withdrawalId: Id): (s: Settled)
    requires w.profit > minBalance
    ensures s.userId == w.userId && s.withdrawalId == withdrawalId
    ensures s.gross + minBalance == w.profit
    ensures 0 < s.net <= s.gross && s.net + s.surcharge == s.gross
  {
    var gross := w.profit - minBalance;
    var tax := Surcharge(gross);
    Settled(w.userId, gross, tax, gross - tax, withdrawalId)
  }

  predicate AboveMinimum(ws: seq<Wallet>, minBalance: int) {
    forall k :: 0 <= k < |ws| ==> ws[k].profit > minBalance
  }

  /** The settlements of a batch in wallet order; the wallet at position k of the batch gets the
      fresh withdrawal id `ids[k]` (the route's `new ObjectId()`). A wallet whose user is missing
      is skipped. */
  function Settlements(ws: seq<Wallet>, ids: seq<Id>, users: seq<User>, minBalance: int): (r: seq<Settled>)
    requires AboveMinimum(ws, minBalance) && |ids| == |ws|
    ensures |r| <= |ws|
    decreases |ws|
  {
    if ws == [] then []
    else
      var prev := Settlements(ws[..|ws| - 1], ids[..|ws| - 1], users, minBalance);
      var w := ws[|ws| - 1];
      if FindUser(users, w.userId).None? then prev
      else prev + [SettlementOf(w, minBalance, ids[|ws| - 1])]
  }

  /** The `$inc` of a settlement: profit falls by the gross and totalWithdrawn rises by it. */
  function SettlementDelta(s: Settled): Delta {
    Delta(0, 0, 0, s.gross, 0, -s.gross)
  }

  function SettlementRemark(s: Settled): string
  {
    "Quarterly Settlement [Gross: \U{20B9}" + AmountText(s.gross) + ", Tax: \U{20B9}" + AmountText(s.surcharge) + "]"
  }

  function SettlementDescription(s: Settled): string {
    "Quarterly Settlement " + (if s.surcharge > 0 then "(Inc. 1% Cess)" else "")
  }

  predicate WellFormed(ss: seq<Settled>) {
    forall k :: 0 <= k < |ss| ==> 0 < ss[k].net <= ss[k].gross && ss[k].surcharge >= 0
  }

  /** The PENDING withdrawal of a settlement, for the net amount. */
  function SettlementWithdrawal(s: Settled, now: int): Withdrawal
  {
    Withdrawal(s.userId, s.net, WPending, Some(SettlementRemark(s)), None, None, now)
  }

  /** The PENDING WITHDRAWAL transaction of a settlement, referencing its withdrawal. Its own id is
      assigned on insert (Records.WithIds). */
  function SettlementTransaction(s: Settled, now: int): Transaction {
    Transaction(0, s.userId, WithdrawalTx, s.net, Some(s.surcharge), Some(s.withdrawalId), TPending,
                SettlementDescription(s), None, now)
  }

  function SettlementOps(ss: seq<Settled>): (r: seq<WalletOp>)
    ensures |r| == |ss|
  {
    if ss == [] then [] else SettlementOps(ss[..|ss| - 1]) + [WalletOp(ss[|ss| - 1].userId, SettlementDelta(ss[|ss| - 1]))]
  }

  function SettlementWithdrawals(ss: seq<Settled>, now: int): (r: seq<(Id, Withdrawal)>)
    ensures |r| == |ss|
  {
    if ss == [] then []
    else SettlementWithdrawals(ss[..|ss| - 1], now)
         + [(ss[|ss| - 1].withdrawalId, SettlementWithdrawal(ss[|ss| - 1], now))]
  }

  function SettlementTransactions(ss: seq<Settled>, now: int): (r: seq<Transaction>)
    ensures |r| == |ss|
  {
    if ss == [] then [] else SettlementTransactions(ss[..|ss| - 1], now) + [SettlementTransaction(ss[|ss| - 1], now)]
  }

  /** `totalSettledAmount`: the sum of the nets. */
  function SumNet(ss: seq<Settled>): int {
    if ss == [] then 0 else SumNet(ss[..|ss| - 1]) + ss[|ss| - 1].net
  }

  function SumGross(ss: seq<Settled>): int {
    if ss == [] then 0 else SumGross(ss[..|ss| - 1]) + ss[|ss| - 1].gross
  }

  /** Every settlement is well formed. */
  lemma {:induction false} SettlementsWellFormed(ws: seq<Wallet>, ids: seq<Id>, users: seq<User>, minBalance: int)
    requires AboveMinimum(ws, minBalance) && |ids| == |ws|
    ensures WellFormed(Settlements(ws, ids, users, minBalance))
    decreases |ws|
  {
    if ws != [] {
      SettlementsWellFormed(ws[..|ws| - 1], ids[..|ws| - 1], users, minBalance);
    }
  }

  /** One more wallet adds its settlement at the end, unless its user is missing. */
  lemma SettlementsSnoc(ws: seq<Wallet>, ids: seq<Id>, users: seq<User>, minBalance: int, i: nat)
    requires AboveMinimum(ws, minBalance) && |ids| == |ws| && i < |ws|
    ensures var next := Settlements(ws[..i + 1], ids[..i + 1], users, minBalance);
            var prev := Settlements(ws[..i], ids[..i], users, minBalance);
            if FindUser(users, ws[i].userId).None? then next == prev
            else next == prev + [SettlementOf(ws[i], minBalance, ids[i])]
  {
    assert ws[..i + 1][..i] == ws[..i];
    assert ids[..i + 1][..i] == ids[..i];
  }

  /** The op lists and running total the route has built after settling `done`. */
  predicate Planned(done: seq<Settled>, walletOps: seq<WalletOp>, withdrawalOps: seq<(Id, Withdrawal)>,
                    txOps: seq<Transaction>, total: int, now: int)
  {
    && WellFormed(done)
    && walletOps == SettlementOps(done)
    && withdrawalOps == SettlementWithdrawals(done, now)
    && txOps == SettlementTransactions(done, now)
    && total == SumNet(done)
  }

  /** Settling one more wallet appends its op, withdrawal and transaction and adds its net. */
  lemma PlannedSnoc(done: seq<Settled>, walletOps: seq<WalletOp>, withdrawalOps: seq<(Id, Withdrawal)>,
                    txOps: seq<Transaction>, total: int, now: int, s: Settled)
    requires Planned(done, walletOps, withdrawalOps, txOps, total, now)
    requires 0 < s.net <= s.gross && s.surcharge >= 0
    ensures Planned(done + [s], walletOps + [WalletOp(s.userId, SettlementDelta(s))],
                    withdrawalOps + [(s.withdrawalId, SettlementWithdrawal(s, now))],
                    txOps + [SettlementTransaction(s, now)], total + s.net, now)
  {
    assert (done + [s])[..|done|] == done;
  }

  /** The loop invariant of PlanSettlement carries over one more wallet of the batch. */
  lemma PlanStep(eligible: seq<Wallet>, ids: seq<Id>, users: seq<User>, minBalance: int, now: int, i: nat,
                 done: seq<Settled>, walletOps: seq<WalletOp>, withdrawalOps: seq<(Id, Withdrawal)>,
                 txOps: seq<Transaction>, total: int)
    requires AboveMinimum(eligible, minBalance) && |ids| == |eligible| && i < |eligible|
    requires done == Settlements(eligible[..i], ids[..i], users, minBalance)
    requires Planned(done, walletOps, withdrawalOps, txOps, total, now)
    ensures var s := SettlementOf(eligible[i], minBalance, ids[i]);
            if FindUser(users, eligible[i].userId).None? then
              done == Settlements(eligible[..i + 1], ids[..i + 1], users, minBalance)
            else
              && done + [s] == Settlements(eligible[..i + 1], ids[..i + 1], users, minBalance)
              && Planned(done + [s], walletOps + [WalletOp(s.userId, SettlementDelta(s))],
                         withdrawalOps + [(s.withdrawalId, SettlementWithdrawal(s, now))],
                         txOps + [SettlementTransaction(s, now)], total + s.net, now)
  {
    SettlementsSnoc(eligible, ids, users, minBalance, i);
    if FindUser(users, eligible[i].userId).Some? {
      PlannedSnoc(done, walletOps, withdrawalOps, txOps, total, now, SettlementOf(eligible[i], minBalance, ids[i]));
    }
  }

  /** One turn of the route's loop: skip a wallet whose user is missing; otherwise compute gross,
      cess and net and build the wallet `$inc`, the withdrawal and the transaction it pushes. */
  method SettleWallet(wallet: Wallet, users: seq<User>, minBalance: int, withdrawalId: Id, now: int)
    returns (settled: bool, net: int, op: WalletOp, withdrawal: (Id, Withdrawal), tx: Transaction)
    requires wallet.profit > minBalance
    ensures var s := SettlementOf(wallet, minBalance, withdrawalId);
            && settled == FindUser(users, wallet.userId).Some?
            && (settled ==> net == s.net && op == WalletOp(s.userId, SettlementDelta(s))
                            && withdrawal == (withdrawalId, SettlementWithdrawal(s, now))
                            && tx == SettlementTransaction(s, now))
  {
    var grossAmount := wallet.profit - minBalance;
    var taxDeducted := Surcharge(grossAmount);
    var netAmount := grossAmount - taxDeducted;
    var s := Settled(wallet.userId, grossAmount, taxDeducted, netAmount, withdrawalId);
    assert s == SettlementOf(wallet, minBalance, withdrawalId);
    settled := FindUser(users, wallet.userId).Some? && netAmount > 0;
    net := netAmount;
    op := WalletOp(wallet.userId, SettlementDelta(s));
    withdrawal := (withdrawalId, SettlementWithdrawal(s, now));
    tx := SettlementTransaction(s, now);
  }

  /** The route's loop over the eligible wallets: the wallet, withdrawal and transaction op lists and
      the running total of the nets. */
  method PlanSettlement(eligible: seq<Wallet>, ids: seq<Id>, users: seq<User>, minBalance: int, now: int)
    returns (walletOps: seq<WalletOp>, withdrawalOps: seq<(Id, Withdrawal)>, txOps: seq<Transaction>, total: int)
    requires AboveMinimum(eligible, minBalance) && |ids| == |eligible|
    ensures Planned(Settlements(eligible, ids, users, minBalance), walletOps, withdrawalOps, txOps, total, now)
  {
    walletOps, withdrawalOps, txOps, total := [], [], [], 0;
    ghost var done: seq<Settled> := [];
    var i := 0;
    assert eligible[..0] == [] && ids[..0] == [];
    while i < |eligible|
      invariant 0 <= i <= |eligible|
      invariant done == Settlements(eligible[..i], ids[..i], users, minBalance)
      invariant Planned(done, walletOps, withdrawalOps, txOps, total, now)
    {
      var settled, net, op, withdrawal, tx := SettleWallet(eligible[i], users, minBalance, ids[i], now);
      ghost var s := SettlementOf(eligible[i], minBalance, ids[i]);
      PlanStep(eligible, ids, users, minBalance, now, i, done, walletOps, withdrawalOps, txOps, total);
      if settled {
        total := total + net;
        walletOps := walletOps + [op];
        withdrawalOps := withdrawalOps + [withdrawal];
        txOps := txOps + [tx];
        done := done + [s];
      }
      i := i + 1;
    }
    assert eligible[..|eligible|] == eligible && ids[..|ids|] == ids;
  }

  /** Every settlement comes from a wallet of the batch whose user exists, with that wallet's
      withdrawal id. */
  lemma {:induction false} SettlementsSound(ws: seq<Wallet>, ids: seq<Id>, users: seq<User>, minBalance: int)
    requires AboveMinimum(ws, minBalance) && |ids| == |ws|
    ensures forall s :: s in Settlements(ws, ids, users, minBalance) ==>
              exists i :: 0 <= i < |ws| && FindUser(users, ws[i].userId).Some?
                          && s == SettlementOf(ws[i], minBalance, ids[i])
    decreases |ws|
  {
    if ws != [] {
      var init, initIds := ws[..|ws| - 1], ids[..|ws| - 1];
      SettlementsSound(init, initIds, users, minBalance);
      forall s | s in Settlements(init, initIds, users, minBalance)
        ensures exists i :: 0 <= i < |ws| && FindUser(users, ws[i].userId).Some?
                            && s == SettlementOf(ws[i], minBalance, ids[i])
      {
        var i :| 0 <= i < |init| && FindUser(users, init[i].userId).Some?
                 && s == SettlementOf(init[i], minBalance, initIds[i]);
        assert init[i] == ws[i] && initIds[i] == ids[i];
      }
    }
  }

  /** Every wallet of the batch whose user exists is settled: the net is never zero, so only a
      missing user makes the route skip a wallet. */
  lemma {:induction false} SettlementsComplete(ws: seq<Wallet>, ids: seq<Id>, users: seq<User>, minBalance: int)
    requires AboveMinimum(ws, minBalance) && |ids| == |ws|
    ensures forall i :: 0 <= i < |ws| && FindUser(users, ws[i].userId).Some? ==>
              SettlementOf(ws[i], minBalance, ids[i]) in Settlements(ws, ids, users, minBalance)
    decreases |ws|
  {
    if ws != [] {
      var init, initIds := ws[..|ws| - 1], ids[..|ws| - 1];
      SettlementsComplete(init, initIds, users, minBalance);
      assert forall i :: 0 <= i < |init| ==> init[i] == ws[i] && initIds[i] == ids[i];
    }
  }

  /** The net paid out never exceeds the profit taken out of the wallets, and is positive as soon as
      one wallet is settled. */
  lemma {:induction false} NetWithinGross(ss: seq<Settled>)
    requires WellFormed(ss)
    ensures 0 <= SumNet(ss) <= SumGross(ss)
    ensures ss != [] ==> SumNet(ss) > 0
  {
    if ss != [] {
      NetWithinGross(ss[..|ss| - 1]);
    }
  }

  predicate DistinctSettled(ss: seq<Settled>) {
    forall a, b :: 0 <= a < b < |ss| ==> ss[a].userId != ss[b].userId
  }

  predicate DistinctIds(ids: seq<Id>) {
    forall a, b :: 0 <= a < b < |ids| ==> ids[a] != ids[b]
  }

  /** Under the unique index on `userId`, each owner is settled at most once; with distinct fresh
      ids, no two withdrawals of a batch share an id. */
  lemma {:induction false} SettlementsDistinct(ws: seq<Wallet>, ids: seq<Id>, users: seq<User>, minBalance: int)
    requires AboveMinimum(ws, minBalance) && |ids| == |ws| && UniqueOwners(ws)
    ensures DistinctSettled(Settlements(ws, ids, users, minBalance))
    decreases |ws|
  {
    if ws != [] {
      var init, initIds := ws[..|ws| - 1], ids[..|ws| - 1];
      var last := ws[|ws| - 1];
      var prev := Settlements(init, initIds, users, minBalance);
      SettlementsDistinct(init, initIds, users, minBalance);
      SettlementsSound(init, initIds, users, minBalance);
      forall k | 0 <= k < |prev|
        ensures prev[k].userId != last.userId
      {
        assert prev[k] in prev;
        var i :| 0 <= i < |init| && FindUser(users, init[i].userId).Some?
                 && prev[k] == SettlementOf(init[i], minBalance, initIds[i]);
        assert init[i] == ws[i];
      }
    }
  }

  lemma SettlementIdsDistinct(ws: seq<Wallet>, ids: seq<Id>, users: seq<User>, minBalance: int)
    requires AboveMinimum(ws, minBalance) && |ids| == |ws| && UniqueOwners(ws) && DistinctIds(ids)
    ensures var ss := Settlements(ws, ids, users, minBalance);
            forall a, b :: 0 <= a < b < |ss| ==> ss[a].withdrawalId != ss[b].withdrawalId
  {
    var ss := Settlements(ws, ids, users, minBalance);
    SettlementsDistinct(ws, ids, users, minBalance);
    SettlementsSound(ws, ids, users, minBalance);
    forall a, b | 0 <= a < b < |ss|
      ensures ss[a].withdrawalId != ss[b].withdrawalId
    {
      assert ss[a] in ss && ss[b] in ss;
      var i :| 0 <= i < |ws| && FindUser(users, ws[i].userId).Some? && ss[a] == SettlementOf(ws[i], minBalance, ids[i]);
      var j :| 0 <= j < |ws| && FindUser(users, ws[j].userId).Some? && ss[b] == SettlementOf(ws[j], minBalance, ids[j]);
      assert i != j;
    }
  }

  lemma {:induction false} SettlementOpsIndex(ss: seq<Settled>)
    ensures forall k :: 0 <= k < |ss| ==> SettlementOps(ss)[k] == WalletOp(ss[k].userId, SettlementDelta(ss[k]))
  {
    if ss != [] {
      SettlementOpsIndex(ss[..|ss| - 1]);
    }
  }

  lemma {:induction false} SettlementWithdrawalsIndex(ss: seq<Settled>, now: int)
    ensures forall k :: 0 <= k < |ss| ==>
              SettlementWithdrawals(ss, now)[k] == (ss[k].withdrawalId, SettlementWithdrawal(ss[k], now))
  {
    if ss != [] {
      var init := ss[..|ss| - 1];
      SettlementWithdrawalsIndex(init, now);
      forall k | 0 <= k < |ss| - 1
        ensures SettlementWithdrawals(ss, now)[k] == (ss[k].withdrawalId, SettlementWithdrawal(ss[k], now))
      {
        assert ss[k] == init[k];
      }
    }
  }

  /** Every withdrawal of a batch uses one of the ids supplied for it. */
  lemma SettlementIdsSupplied(ws: seq<Wallet>, ids: seq<Id>, users: seq<User>, minBalance: int)
    requires AboveMinimum(ws, minBalance) && |ids| == |ws|
    ensures var ss := Settlements(ws, ids, users, minBalance);
            forall k :: 0 <= k < |ss| ==> exists i :: 0 <= i < |ids| && ss[k].withdrawalId == ids[i]
  {
    var ss := Settlements(ws, ids, users, minBalance);
    SettlementsSound(ws, ids, users, minBalance);
    forall k | 0 <= k < |ss|
      ensures exists i :: 0 <= i < |ids| && ss[k].withdrawalId == ids[i]
    {
      assert ss[k] in ss;
    }
  }

  /** The `$inc` that settling wallet `w` applies. */
  function ExcessDelta(w: Wallet, minBalance: int): Delta {
    Delta(0, 0, 0, w.profit - minBalance, 0, minBalance - w.profit)
  }

  /** Any settlement naming the owner of wallet i of the store comes from wallet i itself. */
  lemma SameOwnerSameSettlement(ws: seq<Wallet>, el: seq<Wallet>, ids: seq<Id>, ss: seq<Settled>,
                                users: seq<User>, minBalance: int, i: nat, k: nat)
    requires UniqueOwners(ws) && i < |ws| && el == SettlementEligible(ws, minBalance) && |ids| == |el|
    requires ss == Settlements(el, ids, users, minBalance) && k < |ss| && ss[k].userId == ws[i].userId
    ensures ws[i].profit > minBalance && FindUser(users, ws[i].userId).Some?
    ensures SettlementDelta(ss[k]) == ExcessDelta(ws[i], minBalance)
  {
    SettlementsSound(el, ids, users, minBalance);
    assert ss[k] in ss;
    var j :| 0 <= j < |el| && FindUser(users, el[j].userId).Some? && ss[k] == SettlementOf(el[j], minBalance, ids[j]);
    assert el[j] in ws;
    var m :| 0 <= m < |ws| && ws[m] == el[j];
    SameOwnerSameIndex(ws, m, i);
  }

  /** A wallet above the minimum whose user exists has an op in the batch. */
  lemma SettledHasOp(ws: seq<Wallet>, el: seq<Wallet>, ids: seq<Id>, ss: seq<Settled>,
                     users: seq<User>, minBalance: int, i: nat)
    requires i < |ws| && el == SettlementEligible(ws, minBalance) && |ids| == |el|
    requires ss == Settlements(el, ids, users, minBalance)
    requires ws[i].profit > minBalance && FindUser(users, ws[i].userId).Some?
    ensures OpFor(SettlementOps(ss), ws[i].userId).Some?
  {
    assert ws[i] in el;
    var j :| 0 <= j < |el| && el[j] == ws[i];
    SettlementsComplete(el, ids, users, minBalance);
    assert SettlementOf(ws[i], minBalance, ids[j]) in ss;
    var k :| 0 <= k < |ss| && ss[k] == SettlementOf(ws[i], minBalance, ids[j]);
    SettlementOpsIndex(ss);
    assert SettlementOps(ss)[k].userId == ws[i].userId;
  }

  /** The ops of a batch over the store's eligible wallets target distinct owners. */
  lemma SettlementTargetsDistinct(ws: seq<Wallet>, ids: seq<Id>, users: seq<User>, minBalance: int)
    requires UniqueOwners(ws) && |ids| == |SettlementEligible(ws, minBalance)|
    ensures DistinctTargets(SettlementOps(Settlements(SettlementEligible(ws, minBalance), ids, users, minBalance)))
  {
    var el := SettlementEligible(ws, minBalance);
    var ss := Settlements(el, ids, users, minBalance);
    SettlementEligibleUnique(ws, minBalance);
    SettlementsDistinct(el, ids, users, minBalance);
    SettlementOpsIndex(ss);
    assert forall k :: 0 <= k < |ss| ==> SettlementOps(ss)[k].userId == ss[k].userId;
  }

  /** Wallet i of the store has an op in the batch exactly when it is above the minimum and its
      user exists, and that op moves it by the excess. */
  lemma SettlementOpOf(ws: seq<Wallet>, ids: seq<Id>, users: seq<User>, minBalance: int, i: nat)
    requires UniqueOwners(ws) && i < |ws| && |ids| == |SettlementEligible(ws, minBalance)|
    ensures var ops := SettlementOps(Settlements(SettlementEligible(ws, minBalance), ids, users, minBalance));
            && (OpFor(ops, ws[i].userId).Some? <==> ws[i].profit > minBalance && FindUser(users, ws[i].userId).Some?)
            && (OpFor(ops, ws[i].userId).Some? ==> ops[OpFor(ops, ws[i].userId).value].delta == ExcessDelta(ws[i], minBalance))
  {
    var el := SettlementEligible(ws, minBalance);
    var ss := Settlements(el, ids, users, minBalance);
    var ops := SettlementOps(ss);
    SettlementOpsIndex(ss);
    var o := OpFor(ops, ws[i].userId);
    if o.Some? {
      SameOwnerSameSettlement(ws, el, ids, ss, users, minBalance, i, o.value);
    }
    if ws[i].profit > minBalance && FindUser(users, ws[i].userId).Some? {
      SettledHasOp(ws, el, ids, ss, users, minBalance, i);
    }
  }

  /** The effect of the batch on one wallet of the store: a wallet above the minimum whose user exists
      ends with exactly the minimum balance as profit and its totalWithdrawn raised by the excess;
      every other field, and every other wallet, is unchanged. */
  lemma SettlementEffect(ws: seq<Wallet>, ids: seq<Id>, users: seq<User>, minBalance: int, i: nat)
    requires UniqueOwners(ws) && i < |ws| && |ids| == |SettlementEligible(ws, minBalance)|
    ensures var after := ApplyWalletOps(ws, SettlementOps(Settlements(SettlementEligible(ws, minBalance), ids, users, minBalance)));
            if ws[i].profit > minBalance && FindUser(users, ws[i].userId).Some? then
              after[i] == ws[i].(profit := minBalance, totalWithdrawn := ws[i].totalWithdrawn + ws[i].profit - minBalance)
            else after[i] == ws[i]
  {
    var ops := SettlementOps(Settlements(SettlementEligible(ws, minBalance), ids, users, minBalance));
    SettlementTargetsDistinct(ws, ids, users, minBalance);
    ApplyWalletOpsEffect(ws, ops, i);
    SettlementOpOf(ws, ids, users, minBalance, i);
    ExcessDeltaEffect(ws[i], minBalance);
  }

  /** Applying the excess leaves the minimum as profit and books the excess as withdrawn. */
  lemma ExcessDeltaEffect(w: Wallet, minBalance: int)
    ensures ApplyDelta(w, ExcessDelta(w, minBalance))
            == w.(profit := minBalance, totalWithdrawn := w.totalWithdrawn + w.profit - minBalance)
  {
  }
}
