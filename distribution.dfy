/** The pro-rata profit distribution of src/app/api/admin/distribute-profit/route.ts: the 50/50 split,
    eligibility, each wallet's rounded share, 10% TDS above 5000 rupees, COMPOUND or payout routing,
    and the three parallel op lists the route's loop builds before its bulk writes. */
module Distribution {
  import opened Common
  import opened Money
  import opened Strings
  import opened WalletModel
  import opened Records

  /** TDS applies to a share strictly above 5000 rupees. */
  const TdsThreshold: int := 5000 * Rupee

  /** The wallets that take part: those with `balance > 0`, in store order. */
  function Eligible(ws: seq<Wallet>): (r: seq<Wallet>)
    ensures forall w :: w in r <==> w in ws && w.balance > 0
    ensures forall k :: 0 <= k < |r| ==> r[k].balance > 0
  {
    if ws == [] then []
    else if ws[0].balance > 0 then [ws[0]] + Eligible(ws[1..])
    else Eligible(ws[1..])
  }

  /** Filtering keeps the owners unique. */
  lemma {:induction false} EligibleUnique(ws: seq<Wallet>)
    requires UniqueOwners(ws)
    ensures UniqueOwners(Eligible(ws))
  {
    if ws != [] {
      EligibleUnique(ws[1..]);
      var rest := Eligible(ws[1..]);
      forall k | 0 <= k < |rest|
        ensures rest[k].userId != ws[0].userId
      {
        assert rest[k] in ws[1..];
      }
    }
  }

  /** The total invested capital: the sum of the balances. */
  function SumBalance(ws: seq<Wallet>): int {
    if ws == [] then 0 else ws[0].balance + SumBalance(ws[1..])
  }

  lemma {:induction false} SumBalancePositive(ws: seq<Wallet>)
    requires forall k :: 0 <= k < |ws| ==> ws[k].balance > 0
    ensures ws != [] ==> SumBalance(ws) > 0
  {
    if ws != [] { SumBalancePositive(ws[1..]); }
  }

  /** The pool handed to users and the admin's half: each is half the declared profit. */
  function AdminShare(declared: int): (r: real)
    ensures r + UserSharePool(declared) == declared as real
    ensures r == UserSharePool(declared)
  {
    declared as real / 2.0
  }

  function UserSharePool(declared: int): real {
    declared as real * (1.0 - 0.5)
  }

  /** A wallet's gross share, `round2(balance / total * pool)` with pool = declared / 2: the paise
      amount nearest to balance * declared / (2 * total), ties rounded up (see ShareNearest). */
  function Share(balance: int, declared: int, total: int): (r: int)
    requires total > 0 && balance >= 0 && declared >= 0
    ensures r >= 0
  {
    RoundHalfUpBetween(balance * declared, 2 * total);
    RoundHalfUp(balance * declared, 2 * total)
  }

  /** The share is within half a paisa of balance * declared / (2 * total). */
  lemma ShareNearest(balance: int, declared: int, total: int)
    requires total > 0 && balance >= 0 && declared >= 0
    ensures var r := Share(balance, declared, total);
            4 * total * r <= 2 * (balance * declared) + 2 * total < 4 * total * r + 4 * total
  {
    var n, d := balance * declared, 2 * total;
    var r := RoundHalfUp(n, d);
    RoundHalfUpNearest(n, d);
    assert 2 * d * r <= 2 * n + d < 2 * d * r + 2 * d;
    assert 2 * d * r == 4 * total * r;
  }

  /** TDS: nothing up to and including 5000 rupees; above it, the paise amount nearest to a tenth
      of the share, which is positive and less than the share. */
  function Tds(share: int): (r: int)
    ensures share <= TdsThreshold ==> r == 0
    ensures share > TdsThreshold ==> 20 * r <= 2 * share + 10 < 20 * r + 20
    ensures share > TdsThreshold ==> 0 < r < share
  {
    if share > TdsThreshold then
      RoundHalfUpNearest(share, 10);
      RoundHalfUp(share, 10)
    else 0
  }

  /** The payout preference the route reads: the user's, or COMPOUND when the user or the field is
      missing or empty. */
  function Preference(users: seq<User>, uid: Id): string {
    match FindUser(users, uid)
    case None => "COMPOUND"
    case Some(i) => OrDefault(users[i].payoutPreference, "COMPOUND")
  }

  /** What one wallet receives: gross share, tax, net and where the net goes. */
  datatype Credit = Credit(userId: Id, share: int, tax: int, net: int, compound: bool)

  function CreditOf(w: Wallet, users: seq<User>, declared: int, total: int): Credit
    requires total > 0 && w.balance >= 0 && declared >= 0
  {
    var share := Share(w.balance, declared, total);
    var tax := Tds(share);
    Credit(w.userId, share, tax, share - tax, Preference(users, w.userId) == "COMPOUND")
  }

  predicate NonNegativeBalances(ws: seq<Wallet>) {
    forall k :: 0 <= k < |ws| ==> ws[k].balance >= 0
  }

  predicate DistinctCredits(cs: seq<Credit>) {
    forall i, j :: 0 <= i < j < |cs| ==> cs[i].userId != cs[j].userId
  }

  /** The credits of a batch, in wallet order: one per wallet whose net is positive. */
  function Credits(ws: seq<Wallet>, users: seq<User>, declared: int, total: int): (r: seq<Credit>)
    requires total > 0 && declared >= 0 && NonNegativeBalances(ws)
    ensures |r| <= |ws|
    ensures PositiveNets(r)
    ensures forall k :: 0 <= k < |r| ==> r[k].net + r[k].tax == r[k].share
    decreases |ws|
  {
    if ws == [] then []
    else
      var c := CreditOf(ws[|ws| - 1], users, declared, total);
      var prev := Credits(ws[..|ws| - 1], users, declared, total);
      if c.net > 0 then prev + [c] else prev
  }

  /** One more wallet adds its credit at the end, if its net is positive. */
  lemma CreditsSnoc(ws: seq<Wallet>, users: seq<User>, declared: int, total: int, i: nat)
    requires total > 0 && declared >= 0 && NonNegativeBalances(ws) && i < |ws|
    ensures var c := CreditOf(ws[i], users, declared, total);
            var next := Credits(ws[..i + 1], users, declared, total);
            if c.net > 0 then next == Credits(ws[..i], users, declared, total) + [c]
            else next == Credits(ws[..i], users, declared, total)
  {
    assert ws[..i + 1][..i] == ws[..i];
  }

  /** Every credit is the credit of one of the batch's wallets. */
  lemma {:induction false} CreditsSound(ws: seq<Wallet>, users: seq<User>, declared: int, total: int)
    requires total > 0 && declared >= 0 && NonNegativeBalances(ws)
    ensures forall c :: c in Credits(ws, users, declared, total) ==>
              exists i :: 0 <= i < |ws| && c == CreditOf(ws[i], users, declared, total)
    decreases |ws|
  {
    if ws != [] {
      var init := ws[..|ws| - 1];
      CreditsSound(init, users, declared, total);
      forall c | c in Credits(init, users, declared, total)
        ensures exists i :: 0 <= i < |ws| && c == CreditOf(ws[i], users, declared, total)
      {
        var i :| 0 <= i < |init| && c == CreditOf(init[i], users, declared, total);
        assert init[i] == ws[i];
      }
    }
  }

  /** Every wallet of the batch whose net is positive is credited. */
  lemma {:induction false} CreditsComplete(ws: seq<Wallet>, users: seq<User>, declared: int, total: int)
    requires total > 0 && declared >= 0 && NonNegativeBalances(ws)
    ensures forall i :: 0 <= i < |ws| && CreditOf(ws[i], users, declared, total).net > 0 ==>
              CreditOf(ws[i], users, declared, total) in Credits(ws, users, declared, total)
    decreases |ws|
  {
    if ws != [] {
      var init := ws[..|ws| - 1];
      CreditsComplete(init, users, declared, total);
      assert forall i :: 0 <= i < |init| ==> init[i] == ws[i];
    }
  }

  /** Under the unique index on `userId`, no user is credited twice in one batch. */
  lemma {:induction false} CreditsDistinct(ws: seq<Wallet>, users: seq<User>, declared: int, total: int)
    requires total > 0 && declared >= 0 && NonNegativeBalances(ws) && UniqueOwners(ws)
    ensures DistinctCredits(Credits(ws, users, declared, total))
    decreases |ws|
  {
    if ws != [] {
      var init := ws[..|ws| - 1];
      var last := ws[|ws| - 1];
      var prev := Credits(init, users, declared, total);
      CreditsDistinct(init, users, declared, total);
      CreditsSound(init, users, declared, total);
      forall k | 0 <= k < |prev|
        ensures prev[k].userId != last.userId
      {
        assert prev[k] in prev;
        var i :| 0 <= i < |init| && prev[k] == CreditOf(init[i], users, declared, total);
        assert init[i] == ws[i];
      }
    }
  }

  /** The `$inc` of a credit: the net goes to `balance` under COMPOUND and to `payoutWalletBalance`
      otherwise; `totalProfit` rises by the net either way. */
  function CreditDelta(c: Credit): (d: Delta)
    ensures c.net >= 0 ==> Crediting(d)
  {
    if c.compound then Delta(c.net, 0, 0, 0, c.net, 0) else Delta(0, c.net, 0, 0, c.net, 0)
  }

  function ProfitDescription(c: Credit): string {
    "Monthly Profit Share (" + (if c.compound then "Reinvested" else "Payout Wallet") + ") "
    + (if c.tax > 0 then "[TDS: -\U{20B9}" + AmountText(c.tax) + "]" else "")
  }

  function ProfitNotification(c: Credit): Notification
  {
    Notification(c.userId, "Profit Credited",
      "You received \U{20B9}" + AmountText(c.net) + " as your share of the monthly profit distribution.")
  }

  predicate PositiveNets(cs: seq<Credit>) {
    forall k :: 0 <= k < |cs| ==> cs[k].net > 0
  }

  function CreditOps(cs: seq<Credit>): seq<WalletOp> {
    seq(|cs|, k requires 0 <= k < |cs| => WalletOp(cs[k].userId, CreditDelta(cs[k])))
  }

  /** The PROFIT transaction of a credit: the net amount, the tax withheld, SUCCESS. Its id is
      assigned when the batch is inserted (Records.WithIds). */
  function ProfitTransaction(c: Credit, now: int): Transaction {
    Transaction(0, c.userId, ProfitTx, c.net, Some(c.tax), None, TSuccess, ProfitDescription(c), None, now)
  }

  /** The PROFIT transactions of a batch, in credit order. */
  function ProfitTransactions(cs: seq<Credit>, now: int): (r: seq<Transaction>)
    ensures |r| == |cs|
  {
    if cs == [] then []
    else ProfitTransactions(cs[..|cs| - 1], now) + [ProfitTransaction(cs[|cs| - 1], now)]
  }

  function ProfitNotifications(cs: seq<Credit>): seq<Notification>
  {
    seq(|cs|, k requires 0 <= k < |cs| => ProfitNotification(cs[k]))
  }


  /** The op lists of a batch grow by one entry per added credit. */
  lemma OpsSnoc(cs: seq<Credit>, c: Credit, now: int)
    ensures CreditOps(cs + [c]) == CreditOps(cs) + [WalletOp(c.userId, CreditDelta(c))]
    ensures ProfitTransactions(cs + [c], now)
            == ProfitTransactions(cs, now) + [ProfitTransaction(c, now)]
    ensures ProfitNotifications(cs + [c]) == ProfitNotifications(cs) + [ProfitNotification(c)]
  {
    assert (cs + [c])[..|cs|] == cs;
  }

  /** One turn of the route's loop: the wallet's share, its TDS and net, and, when the net is
      positive, the wallet `$inc`, the PROFIT transaction and the notification it pushes. */
  method CreditWallet(wallet: Wallet, users: seq<User>, declared: int, total: int, now: int)
    returns (credited: bool, op: WalletOp, tx: Transaction, note: Notification)
    requires total > 0 && wallet.balance >= 0 && declared >= 0
    ensures var c := CreditOf(wallet, users, declared, total);
            && credited == (c.net > 0)
            && (credited ==> op == WalletOp(c.userId, CreditDelta(c)) && tx == ProfitTransaction(c, now)
                             && note == ProfitNotification(c))
  {
    var userProfit := Share(wallet.balance, declared, total);
    var taxDeducted := Tds(userProfit);
    var net := userProfit - taxDeducted;
    var preference := Preference(users, wallet.userId);
    var credit := Credit(wallet.userId, userProfit, taxDeducted, net, preference == "COMPOUND");
    credited := net > 0;
    op := WalletOp(wallet.userId, CreditDelta(credit));
    tx := ProfitTransaction(credit, now);
    note := if credited then ProfitNotification(credit) else Notification(wallet.userId, "", "");
  }

  /** The route's loop over the eligible wallets: it builds the wallet, transaction and notification
      op lists, one entry each per wallet whose net is positive, in wallet order. */
  method PlanDistribution(eligible: seq<Wallet>, users: seq<User>, declared: int, total: int, now: int)
    returns (walletOps: seq<WalletOp>, txOps: seq<Transaction>, noteOps: seq<Notification>)
    requires total > 0 && declared >= 0 && NonNegativeBalances(eligible)
    ensures walletOps == CreditOps(Credits(eligible, users, declared, total))
    ensures txOps == ProfitTransactions(Credits(eligible, users, declared, total), now)
    ensures noteOps == ProfitNotifications(Credits(eligible, users, declared, total))
  {
    walletOps, txOps, noteOps := [], [], [];
    ghost var credits: seq<Credit> := [];
    var i := 0;
    assert eligible[..0] == [];
    while i < |eligible|
      invariant 0 <= i <= |eligible|
      invariant credits == Credits(eligible[..i], users, declared, total)
      invariant walletOps == CreditOps(credits)
      invariant txOps == ProfitTransactions(credits, now)
      invariant noteOps == ProfitNotifications(credits)
    {
      var credited, op, tx, note := CreditWallet(eligible[i], users, declared, total, now);
      ghost var c := CreditOf(eligible[i], users, declared, total);
      CreditsSnoc(eligible, users, declared, total, i);
      if credited {
        OpsSnoc(credits, c, now);
        walletOps := walletOps + [op];
        txOps := txOps + [tx];
        noteOps := noteOps + [note];
        credits := credits + [c];
      }
      i := i + 1;
    }
    assert eligible[..|eligible|] == eligible;
  }

  /** Sum of the gross shares of a batch. */
  function SumShares(ws: seq<Wallet>, declared: int, total: int): int
    requires total > 0 && declared >= 0 && NonNegativeBalances(ws)
  {
    if ws == [] then 0 else Share(ws[0].balance, declared, total) + SumShares(ws[1..], declared, total)
  }

  /** Sum over a batch of balance * declared, the numerators of the unrounded shares. */
  function SumScaled(ws: seq<Wallet>, declared: int): int {
    if ws == [] then 0 else ws[0].balance * declared + SumScaled(ws[1..], declared)
  }

  /** Unrounded, the shares balance * declared / (2 * total) add up to the whole pool
      declared / 2 when total is the batch's capital: their numerators add up to declared * total. */
  lemma {:induction false} UnroundedSharesSumToPool(ws: seq<Wallet>, declared: int)
    ensures SumScaled(ws, declared) == declared * SumBalance(ws)
  {
    if ws != [] {
      UnroundedSharesSumToPool(ws[1..], declared);
      assert declared * SumBalance(ws) == declared * ws[0].balance + declared * SumBalance(ws[1..]);
    }
  }

  /** Each rounding moves a share by at most half a paisa, so the batch's shares, scaled by
      4 * total, are within 2 * total * n of twice their numerators. */
  lemma {:induction false} SumSharesScaled(ws: seq<Wallet>, declared: int, total: int)
    requires total > 0 && declared >= 0 && NonNegativeBalances(ws)
    ensures 4 * total * SumShares(ws, declared, total) <= 2 * SumScaled(ws, declared) + 2 * total * |ws|
    ensures 2 * SumScaled(ws, declared) - 2 * total * |ws| <= 4 * total * SumShares(ws, declared, total)
  {
    if ws != [] {
      var rest := ws[1..];
      SumSharesScaled(rest, declared, total);
      var s0 := Share(ws[0].balance, declared, total);
      var sr := SumShares(rest, declared, total);
      ShareNearest(ws[0].balance, declared, total);
      MulAdd(4 * total, s0, sr);
      MulAdd(2 * total, 1, |rest|);
    }
  }

  lemma MulAdd(c: int, x: int, y: int)
    ensures c * (x + y) == c * x + c * y
  {
  }

  lemma LeFromScaled(x: int, y: int, c: int)
    requires c > 0 && c * x <= c * y
    ensures x <= y
  {
    if x > y { LtFromScaled(y, x, c); }
  }

  /** The rounded shares handed out differ from the pool (declared / 2) by at most half a paisa per
      eligible wallet: declared - n <= 2 * sum <= declared + n. */
  lemma SharesSumNearPool(ws: seq<Wallet>, declared: int)
    requires declared >= 0 && NonNegativeBalances(ws) && SumBalance(ws) > 0
    ensures declared - |ws| <= 2 * SumShares(ws, declared, SumBalance(ws)) <= declared + |ws|
  {
    var t := SumBalance(ws);
    var s := SumShares(ws, declared, t);
    SumSharesScaled(ws, declared, t);
    UnroundedSharesSumToPool(ws, declared);
    PoolBounds(t, s, SumScaled(ws, declared), declared, |ws|);
  }

  lemma PoolBounds(t: int, s: int, scaled: int, declared: int, n: int)
    requires t > 0 && scaled == declared * t
    requires 4 * t * s <= 2 * scaled + 2 * t * n
    requires 2 * scaled - 2 * t * n <= 4 * t * s
    ensures declared - n <= 2 * s <= declared + n
  {
    assert (2 * t) * (2 * s) == 4 * t * s;
    assert (2 * t) * (declared + n) == 2 * scaled + 2 * t * n;
    assert (2 * t) * (declared - n) == 2 * scaled - 2 * t * n;
    LeFromScaled(2 * s, declared + n, 2 * t);
    LeFromScaled(declared - n, 2 * s, 2 * t);
  }

  /** The op of a batch that names `uid` is the one built from the credit of `uid`. */
  lemma CreditOpFor(cs: seq<Credit>, uid: Id)
    ensures OpFor(CreditOps(cs), uid).Some? ==>
              var k := OpFor(CreditOps(cs), uid).value;
              k < |cs| && cs[k].userId == uid && CreditOps(cs)[k].delta == CreditDelta(cs[k])
    ensures OpFor(CreditOps(cs), uid).None? ==> forall k :: 0 <= k < |cs| ==> cs[k].userId != uid
  {
    var ops := CreditOps(cs);
    assert forall k :: 0 <= k < |cs| ==> ops[k].userId == cs[k].userId;
  }

  /** The effect of the whole batch on one wallet of the store: a wallet with balance > 0 and a
      positive net receives exactly its credit; every other wallet is unchanged. */
  lemma DistributionEffect(ws: seq<Wallet>, users: seq<User>, declared: int, i: nat)
    requires UniqueOwners(ws) && AllValid(ws) && declared >= 0 && i < |ws|
    requires SumBalance(Eligible(ws)) > 0
    ensures var total := SumBalance(Eligible(ws));
            var after := ApplyWalletOps(ws, CreditOps(Credits(Eligible(ws), users, declared, total)));
            var c := CreditOf(ws[i], users, declared, total);
            if ws[i].balance > 0 && c.net > 0 then after[i] == ApplyDelta(ws[i], CreditDelta(c))
            else after[i] == ws[i]
  {
    var total := SumBalance(Eligible(ws));
    var el := Eligible(ws);
    var cs := Credits(el, users, declared, total);
    var ops := CreditOps(cs);
    var uid := ws[i].userId;
    var c := CreditOf(ws[i], users, declared, total);
    EligibleUnique(ws);
    CreditsDistinct(el, users, declared, total);
    assert DistinctTargets(ops) by {
      assert forall k :: 0 <= k < |cs| ==> ops[k].userId == cs[k].userId;
    }
    ApplyWalletOpsEffect(ws, ops, i);
    CreditOpFor(cs, uid);
    OpImpliesCredited(ws, users, declared, i);
    if ws[i].balance > 0 && c.net > 0 {
      CreditMatches(ws, users, declared, i);
    }
  }

  /** A credited wallet's op is its own credit. */
  lemma CreditMatches(ws: seq<Wallet>, users: seq<User>, declared: int, i: nat)
    requires UniqueOwners(ws) && AllValid(ws) && declared >= 0 && i < |ws|
    requires SumBalance(Eligible(ws)) > 0
    requires ws[i].balance > 0 && CreditOf(ws[i], users, declared, SumBalance(Eligible(ws))).net > 0
    ensures var total := SumBalance(Eligible(ws));
            var cs := Credits(Eligible(ws), users, declared, total);
            var o := OpFor(CreditOps(cs), ws[i].userId);
            o.Some? && cs[o.value] == CreditOf(ws[i], users, declared, total)
  {
    var total := SumBalance(Eligible(ws));
    var el := Eligible(ws);
    var cs := Credits(el, users, declared, total);
    var c := CreditOf(ws[i], users, declared, total);
    assert ws[i] in el;
    var j :| 0 <= j < |el| && el[j] == ws[i];
    CreditsComplete(el, users, declared, total);
    assert c in cs;
    var k :| 0 <= k < |cs| && cs[k] == c;
    CreditOpFor(cs, ws[i].userId);
    var m := OpFor(CreditOps(cs), ws[i].userId).value;
    SameOwnerSameCredit(ws, users, declared, i, m);
  }

  /** Any credit naming the owner of wallet i is wallet i's own credit. */
  lemma SameOwnerSameCredit(ws: seq<Wallet>, users: seq<User>, declared: int, i: nat, k: nat)
    requires UniqueOwners(ws) && AllValid(ws) && declared >= 0 && i < |ws|
    requires SumBalance(Eligible(ws)) > 0
    requires k < |Credits(Eligible(ws), users, declared, SumBalance(Eligible(ws)))|
    requires Credits(Eligible(ws), users, declared, SumBalance(Eligible(ws)))[k].userId == ws[i].userId
    ensures Credits(Eligible(ws), users, declared, SumBalance(Eligible(ws)))[k]
            == CreditOf(ws[i], users, declared, SumBalance(Eligible(ws)))
    ensures ws[i].balance > 0
  {
    var total := SumBalance(Eligible(ws));
    var el := Eligible(ws);
    var cs := Credits(el, users, declared, total);
    CreditsSound(el, users, declared, total);
    assert cs[k] in cs;
    var j :| 0 <= j < |el| && cs[k] == CreditOf(el[j], users, declared, total);
    assert el[j] in ws;
    var m :| 0 <= m < |ws| && ws[m] == el[j];
    SameOwnerSameIndex(ws, m, i);
  }

  /** A wallet that has an op in the batch has balance and a positive net. */
  lemma OpImpliesCredited(ws: seq<Wallet>, users: seq<User>, declared: int, i: nat)
    requires UniqueOwners(ws) && AllValid(ws) && declared >= 0 && i < |ws|
    requires SumBalance(Eligible(ws)) > 0
    ensures OpFor(CreditOps(Credits(Eligible(ws), users, declared, SumBalance(Eligible(ws)))), ws[i].userId).Some? ==>
              ws[i].balance > 0 && CreditOf(ws[i], users, declared, SumBalance(Eligible(ws))).net > 0
  {
    var total := SumBalance(Eligible(ws));
    var cs := Credits(Eligible(ws), users, declared, total);
    CreditOpFor(cs, ws[i].userId);
    var o := OpFor(CreditOps(cs), ws[i].userId);
    if o.Some? {
      SameOwnerSameCredit(ws, users, declared, i, o.value);
    }
  }
}
