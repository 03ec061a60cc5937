/** Investment strategies and the capital checks of the strategy management route
    (src/app/api/strategy/manage/route.ts): the liquid funds still free to deploy, the tenure split
    that must add up to the deployed capital, and the create, update and delete operations. */
module Strategies {
  import opened Common
  import opened Records
  import opened WalletModel

  /** `tenureAllocation`: how the deployed capital is split across lock-in tenures. A missing part
      counts as 0. */
  datatype Tenure = Tenure(flexi: Option<int>, months3: Option<int>, months6: Option<int>, months12: Option<int>)

  /** The fields of a strategy record that the route and the charts read. Amounts are in paise. */
  datatype Strategy = Strategy(
    id: Id,
    name: string,
    category: string,
    isActive: bool,
    totalCapitalDeployed: int,
    conservativeROI: int,
    tenure: Option<Tenure>)

  /** The body of a create request. */
  datatype Draft = Draft(
    name: string,
    category: string,
    isActive: bool,
    totalCapitalDeployed: int,
    conservativeROI: int,
    tenure: Option<Tenure>)

  /** The body of an update request: only the fields present are written. */
  datatype Patch = Patch(
    name: Option<string>,
    category: Option<string>,
    isActive: Option<bool>,
    totalCapitalDeployed: Option<int>,
    conservativeROI: Option<int>,
    tenure: Option<Tenure>)

  /** `flexi + months3 + months6 + months12`, each missing part read as 0. */
  function TenureSum(t: Tenure): int {
    t.flexi.GetOr(0) + t.months3.GetOr(0) + t.months6.GetOr(0) + t.months12.GetOr(0)
  }

  /** The tenure check: without a tenure split there is nothing to check; with one, its parts must
      add up exactly to the capital in the same body (a body without that capital never matches). */
  predicate TenureMatches(tenure: Option<Tenure>, capital: Option<int>)
  {
    tenure.None? || (capital.Some? && TenureSum(tenure.value) == capital.value)
  }

  /** Total system funds: principal, profit and referral summed over every wallet. */
  function SystemFunds(ws: seq<Wallet>): int {
    if ws == [] then 0 else SystemFunds(ws[..|ws| - 1]) + ws[|ws| - 1].principal + ws[|ws| - 1].profit + ws[|ws| - 1].referral
  }

  /** The capital a strategy holds back from the pool: its deployed capital while it is active. */
  function Blocking(s: Strategy): int {
    if s.isActive then s.totalCapitalDeployed else 0
  }

  /** Capital blocked by the active strategies. */
  function Blocked(ss: seq<Strategy>): int {
    if ss == [] then 0 else Blocked(ss[..|ss| - 1]) + Blocking(ss[|ss| - 1])
  }

  /** `getAvailableLiquid`: the system funds not yet blocked by an active strategy. */
  function Available(ws: seq<Wallet>, ss: seq<Strategy>): int {
    SystemFunds(ws) - Blocked(ss)
  }

  lemma {:induction false} BlockedConcat(a: seq<Strategy>, b: seq<Strategy>)
    ensures Blocked(a + b) == Blocked(a) + Blocked(b)
    decreases |b|
  {
    if b == [] {
      assert a + b == a;
    } else {
      assert (a + b)[..|a + b| - 1] == a + b[..|b| - 1];
      BlockedConcat(a, b[..|b| - 1]);
    }
  }

  lemma BlockedSingle(s: Strategy)
    ensures Blocked([s]) == Blocking(s)
  {
    assert [s][..0] == [];
  }

  /** Replacing the strategy at `i` changes the blocked capital by exactly the difference between
      what the new and the old record block. */
  lemma BlockedReplace(ss: seq<Strategy>, i: nat, s: Strategy)
    requires i < |ss|
    ensures Blocked(ss[i := s]) == Blocked(ss) - Blocking(ss[i]) + Blocking(s)
  {
    var before, after := ss[..i], ss[i + 1..];
    assert ss == before + [ss[i]] + after;
    assert ss[i := s] == before + [s] + after;
    BlockedConcat(before + [ss[i]], after);
    BlockedConcat(before, [ss[i]]);
    BlockedConcat(before + [s], after);
    BlockedConcat(before, [s]);
    BlockedSingle(s);
    BlockedSingle(ss[i]);
  }

  /** Removing the strategy at `i` frees exactly the capital it blocked. */
  lemma BlockedRemove(ss: seq<Strategy>, i: nat)
    requires i < |ss|
    ensures Blocked(ss[..i] + ss[i + 1..]) == Blocked(ss) - Blocking(ss[i])
  {
    SplitAround(ss, i);
    BlockedAround(ss[..i], ss[i], ss[i + 1..]);
    BlockedConcat(ss[..i], ss[i + 1..]);
  }

  lemma SplitAround(ss: seq<Strategy>, i: nat)
    requires i < |ss|
    ensures ss == ss[..i] + [ss[i]] + ss[i + 1..]
  {
  }

  /** The capital blocked by `a`, then `x`, then `b`. */
  lemma BlockedAround(a: seq<Strategy>, x: Strategy, b: seq<Strategy>)
    ensures Blocked(a + [x] + b) == Blocked(a) + Blocking(x) + Blocked(b)
  {
    BlockedConcat(a + [x], b);
    BlockedConcat(a, [x]);
    BlockedSingle(x);
  }

  /** The record a create request inserts. */
  function Created(id: Id, d: Draft): Strategy {
    Strategy(id, d.name, d.category, d.isActive, d.totalCapitalDeployed, d.conservativeROI, d.tenure)
  }

  /** `findByIdAndUpdate(id, body)`: the fields present in the body overwrite the record's. */
  function Patched(s: Strategy, p: Patch): (r: Strategy)
    ensures r.id == s.id
    ensures p.name.Some? ==> r.name == p.name.value
    ensures p.name.None? ==> r.name == s.name
    ensures p.category.Some? ==> r.category == p.category.value
    ensures p.category.None? ==> r.category == s.category
    ensures p.isActive.Some? ==> r.isActive == p.isActive.value
    ensures p.isActive.None? ==> r.isActive == s.isActive
    ensures p.totalCapitalDeployed.Some? ==> r.totalCapitalDeployed == p.totalCapitalDeployed.value
    ensures p.totalCapitalDeployed.None? ==> r.totalCapitalDeployed == s.totalCapitalDeployed
    ensures p.conservativeROI.Some? ==> r.conservativeROI == p.conservativeROI.value
    ensures p.conservativeROI.None? ==> r.conservativeROI == s.conservativeROI
    ensures p.tenure.Some? ==> r.tenure == p.tenure
    ensures p.tenure.None? ==> r.tenure == s.tenure
  {
    Strategy(s.id, p.name.GetOr(s.name), p.category.GetOr(s.category), p.isActive.GetOr(s.isActive),
             p.totalCapitalDeployed.GetOr(s.totalCapitalDeployed), p.conservativeROI.GetOr(s.conservativeROI),
             if p.tenure.Some? then p.tenure else s.tenure)
  }

  /** A create that passes the liquid-funds check never over-commits the pool: an active strategy
      takes its capital out of the free funds and leaves them non-negative; an inactive one blocks
      nothing. */
  lemma CreateWithinLiquid(ws: seq<Wallet>, ss: seq<Strategy>, id: Id, d: Draft)
    requires d.totalCapitalDeployed <= Available(ws, ss)
    ensures d.isActive ==> Available(ws, ss + [Created(id, d)]) == Available(ws, ss) - d.totalCapitalDeployed >= 0
    ensures !d.isActive ==> Available(ws, ss + [Created(id, d)]) == Available(ws, ss)
  {
    assert (ss + [Created(id, d)])[..|ss|] == ss;
  }

  /** An update of an active strategy that passes the liquid-funds check, with the old capital added
      back, leaves the pool non-negative when the updated record is active; when it is deactivated
      the pool grows by the capital it released. */
  lemma UpdateWithinLiquid(ws: seq<Wallet>, ss: seq<Strategy>, i: nat, p: Patch)
    requires i < |ss| && ss[i].isActive && p.totalCapitalDeployed.Some?
    requires p.totalCapitalDeployed.value <= Available(ws, ss) + ss[i].totalCapitalDeployed
    ensures var after := Available(ws, ss[i := Patched(ss[i], p)]);
            if Patched(ss[i], p).isActive then after >= 0 else after == Available(ws, ss) + ss[i].totalCapitalDeployed
  {
    BlockedReplace(ss, i, Patched(ss[i], p));
  }

  /** The check adds back the old capital even when the strategy was inactive and so blocked
      nothing: reactivating an inactive strategy then passes with more than the free funds. */
  lemma UpdateOfInactiveCanOvercommit()
    ensures var ss := [Strategy(0, "S", "OTHER", false, 5000, 0, None)];
            var p := Patch(None, None, Some(true), Some(15000), None, None);
            var ws := [Wallet(1, 0, 0, 0, 0, 0, 10000, 0, 0, 0)];
            && p.totalCapitalDeployed.value <= Available(ws, ss) + ss[0].totalCapitalDeployed
            && Available(ws, ss[0 := Patched(ss[0], p)]) < 0
  {
    var ss := [Strategy(0, "S", "OTHER", false, 5000, 0, None)];
    var p := Patch(None, None, Some(true), Some(15000), None, None);
    var ws := [Wallet(1, 0, 0, 0, 0, 0, 10000, 0, 0, 0)];
    assert ws[..0] == [] && ss[..0] == [];
    assert ss[0 := Patched(ss[0], p)][..0] == [];
  }

  /** The position of the strategy with id `id`. */
  function FindStrategy(ss: seq<Strategy>, id: Id): (r: Option<nat>)
    ensures r.Some? ==> r.value < |ss| && ss[r.value].id == id
    ensures r.None? ==> forall j :: 0 <= j < |ss| ==> ss[j].id != id
  {
    if ss == [] then None
    else if ss[0].id == id then Some(0)
    else match FindStrategy(ss[1..], id)
      case None => None
      case Some(i) => Some(i + 1)
  }

  predicate UniqueStrategyIds(ss: seq<Strategy>) {
    forall i, j :: 0 <= i < j < |ss| ==> ss[i].id != ss[j].id
  }

  /** Deleting by id removes exactly the one strategy with that id and keeps the others in order. */
  lemma RemoveById(ss: seq<Strategy>, i: nat)
    requires UniqueStrategyIds(ss) && i < |ss|
    ensures forall s :: s in ss[..i] + ss[i + 1..] <==> s in ss && s.id != ss[i].id
  {
    forall s | s in ss
      ensures s in ss[..i] + ss[i + 1..] <==> s.id != ss[i].id
    {
      var k :| 0 <= k < |ss| && ss[k] == s;
      if k < i {
        assert s == (ss[..i] + ss[i + 1..])[k];
      } else if k > i {
        assert s == (ss[..i] + ss[i + 1..])[k - 1];
      } else {
        var rest := ss[..i] + ss[i + 1..];
        forall m | 0 <= m < |rest|
          ensures rest[m].id != s.id
        {
          if m < i { assert rest[m] == ss[m]; } else { assert rest[m] == ss[m + 1]; }
        }
      }
    }
  }

  /** The store of strategy records behind the route. The wallets it reads are passed in. */
  class StrategyDesk {
    var strategies: seq<Strategy>
    var nextId: Id

    ghost predicate Valid()
      reads this
    {
      UniqueStrategyIds(strategies) && forall i :: 0 <= i < |strategies| ==> strategies[i].id < nextId
    }

    constructor ()
      ensures Valid() && strategies == [] && nextId == 0
    {
      strategies := [];
      nextId := 0;
    }

    /** POST: an admin creates a strategy when its tenure split adds up and the free funds cover
        its capital. */
    method Create(session: Option<Session>, d: Draft, ws: seq<Wallet>) returns (r: Result<Id>)
      requires Valid()
      modifies this
      ensures Valid()
      ensures !IsAdmin(session) ==> r == Err(Unauthorized) && unchanged(this)
      ensures IsAdmin(session) && !TenureMatches(d.tenure, Some(d.totalCapitalDeployed)) ==>
                r == Err(ValidationError) && unchanged(this)
      ensures IsAdmin(session) && TenureMatches(d.tenure, Some(d.totalCapitalDeployed))
              && d.totalCapitalDeployed > Available(ws, old(strategies)) ==>
                r == Err(Insufficient) && unchanged(this)
      ensures IsAdmin(session) && TenureMatches(d.tenure, Some(d.totalCapitalDeployed))
              && d.totalCapitalDeployed <= Available(ws, old(strategies)) ==>
                && r == Ok(old(nextId))
                && strategies == old(strategies) + [Created(old(nextId), d)]
                && nextId == old(nextId) + 1
    {
      if !IsAdmin(session) {
        return Err(Unauthorized);
      }
      if !TenureMatches(d.tenure, Some(d.totalCapitalDeployed)) {
        return Err(ValidationError);
      }
      if d.totalCapitalDeployed > Available(ws, strategies) {
        return Err(Insufficient);
      }
      strategies := strategies + [Created(nextId, d)];
      r := Ok(nextId);
      nextId := nextId + 1;
    }

    /** PUT: an admin rewrites the fields present in the body, checked against the free funds with
        the strategy's old capital added back. */
    method Update(session: Option<Session>, id: Id, p: Patch, ws: seq<Wallet>) returns (r: Result<()>)
      requires Valid()
      modifies this
      ensures Valid()
      ensures !IsAdmin(session) ==> r == Err(Unauthorized) && unchanged(this)
      ensures IsAdmin(session) && FindStrategy(old(strategies), id).None? ==> r == Err(NotFound) && unchanged(this)
      ensures IsAdmin(session) && FindStrategy(old(strategies), id).Some? ==>
                var i := FindStrategy(old(strategies), id).value;
                var effective := Available(ws, old(strategies)) + old(strategies)[i].totalCapitalDeployed;
                if !TenureMatches(p.tenure, p.totalCapitalDeployed) then
                  r == Err(ValidationError) && unchanged(this)
                else if p.totalCapitalDeployed.Some? && p.totalCapitalDeployed.value > effective then
                  r == Err(Insufficient) && unchanged(this)
                else
                  r == Ok(()) && strategies == old(strategies)[i := Patched(old(strategies)[i], p)]
                  && nextId == old(nextId)
    {
      if !IsAdmin(session) {
        return Err(Unauthorized);
      }
      var found := FindStrategy(strategies, id);
      if found.None? {
        return Err(NotFound);
      }
      var i := found.value;
      if !TenureMatches(p.tenure, p.totalCapitalDeployed) {
        return Err(ValidationError);
      }
      var effective := Available(ws, strategies) + strategies[i].totalCapitalDeployed;
      if p.totalCapitalDeployed.Some? && p.totalCapitalDeployed.value > effective {
        return Err(Insufficient);
      }
      strategies := strategies[i := Patched(strategies[i], p)];
      r := Ok(());
    }

    /** DELETE: an admin removes the strategy with the given id. */
    method Delete(session: Option<Session>, id: Option<Id>) returns (r: Result<()>)
      requires Valid()
      modifies this
      ensures Valid()
      ensures !IsAdmin(session) ==> r == Err(Unauthorized) && unchanged(this)
      ensures IsAdmin(session) && id.None? ==> r == Err(ValidationError) && unchanged(this)
      ensures IsAdmin(session) && id.Some? && FindStrategy(old(strategies), id.value).None? ==>
                r == Err(NotFound) && unchanged(this)
      ensures IsAdmin(session) && id.Some? && FindStrategy(old(strategies), id.value).Some? ==>
                var i := FindStrategy(old(strategies), id.value).value;
                r == Ok(()) && strategies == old(strategies)[..i] + old(strategies)[i + 1..] && nextId == old(nextId)
    {
      if !IsAdmin(session) {
        return Err(Unauthorized);
      }
      if id.None? {
        return Err(ValidationError);
      }
      var found := FindStrategy(strategies, id.value);
      if found.None? {
        return Err(NotFound);
      }
      var i := found.value;
      strategies := strategies[..i] + strategies[i + 1..];
      r := Ok(());
    }
  }
}
