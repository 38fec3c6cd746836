/**
 A solvent module account can pay everything the export withdraws, so that each withdrawal whose
 call does not fail goes through.
*/
module Solvency {
  import opened Base
  import opened Sums
  import opened Distribution
  import opened Invariants
  import opened ZeroHeight
  import opened Conservation
  import opened Rebuilding
  import opened ExportTheorems

  ghost predicate NoDebts(m: Money) {
    forall v :: v in m.outstanding ==> m.outstanding[v] >= 0
  }

  /** The module account covers the community pool and everything outstanding. */
  ghost predicate Solvent(m: Money) {
    Backing(m) >= 0 && m.pool >= 0 && NoDebts(m)
  }

  /** A solvent account can pay whatever is outstanding for one validator. */
  lemma SolventPays(m: Money, v: Addr, amount: int)
    requires Solvent(m) && amount <= At(m.outstanding, v)
    ensures amount <= m.bal * PRECISION && amount / PRECISION <= m.bal
  {
    SumCovers(m.outstanding, v);
  }

  lemma OutstandingNotNegative(k: View, s: Distr)
    requires Known(k, s) && Covered(k, s.money, s.book)
    ensures NoDebts(s.money)
  {
    forall v | v in s.money.outstanding ensures s.money.outstanding[v] >= 0 {
      assert v in k.order;
    }
  }

  // ----- every prefix of the withdrawals keeps the account solvent -----

  lemma CommissionSolvent(k: View, s: Distr, v: Addr)
    requires Start(k, s) && Solvent(s.money) && v in k.order
    ensures Solvent(WithdrawCommission(s, v).money)
  {
    hide Sound, Known, Owed, Backing, NoDebts;
    var t := WithdrawCommission(s, v);
    WithdrawCommissionConserves(s, v);
    WithdrawCommissionKeeps(k, s, v);
    StartIsInv(k, t);
    OutstandingNotNegative(k, t);
    CommissionKeepsPool(s, v);
  }

  lemma CommissionKeepsPool(s: Distr, v: Addr)
    ensures WithdrawCommission(s, v).money.pool == s.money.pool
  {
  }

  lemma {:induction false} CommissionsSolvent(k: View, s: Distr, vals: seq<Addr>, failed: set<Addr>)
    requires Start(k, s) && Solvent(s.money) && forall v :: v in vals ==> v in k.order
    ensures Solvent(WithdrawCommissions(s, vals, failed).money)
  {
    hide Start, Solvent, WithdrawCommission;
    if vals != [] {
      var init := vals[..|vals| - 1];
      CommissionsKeep(k, s, init, failed);
      CommissionsSolvent(k, s, init, failed);
      CommissionSolvent(k, WithdrawCommissions(s, init, failed), vals[|vals| - 1]);
    }
  }

  lemma RewardsSolvent(k: View, s: Distr, d: DelKey, height: nat)
    requires WellFormed(k) && Inv(k, s) && Fits(k, s.book, height) && Known(k, s) && Solvent(s.money)
    ensures Solvent(WithdrawRewards(k, s, d, height).money)
  {
    hide Sound, Known, Covered, Backing, NoDebts, WithdrawRewards;
    var t := WithdrawRewards(k, s, d, height);
    WithdrawRewardsConserves(k, s, d, height);
    WithdrawRewardsKeeps(k, s, d, height);
    WithdrawRewardsKnown(k, s, d, height);
    OutstandingNotNegative(k, t);
    RewardsGrowPool(k, s, d, height);
  }

  lemma RewardsGrowPool(k: View, s: Distr, d: DelKey, height: nat)
    requires WellFormed(k) && Inv(k, s) && Fits(k, s.book, height)
    ensures WithdrawRewards(k, s, d, height).money.pool >= s.money.pool
  {
    hide Sound, WithdrawRewards;
    WithdrawRewardsSpends(k, s, d, height);
    if !(d.val in k.order) {
      OutsiderUnpaid(k, s, d, height);
    }
  }

  lemma OutsiderUnpaid(k: View, s: Distr, d: DelKey, height: nat)
    requires !Withdrawable(k, s, d)
    ensures WithdrawRewards(k, s, d, height) == s
  {
  }

  lemma {:induction false} AllRewardsSolvent(k: View, s: Distr, dels: seq<DelKey>, height: nat, failed: set<DelKey>)
    requires WellFormed(k) && Inv(k, s) && Fits(k, s.book, height) && Known(k, s) && Solvent(s.money)
    ensures Solvent(WithdrawAllRewards(k, s, dels, height, failed).money)
  {
    hide Inv, Known, Solvent, WithdrawRewards;
    if dels != [] {
      var init := dels[..|dels| - 1];
      RewardsKeep(k, s, init, height, failed);
      AllRewardsSolvent(k, s, init, height, failed);
      RewardsSolvent(k, WithdrawAllRewards(k, s, init, height, failed), dels[|dels| - 1], height);
    }
  }

  // ----- one withdrawal -----

  /** A commission is paid down to its fraction; no other commission changes. */
  lemma CommissionPaid(k: View, s: Distr, v: Addr)
    requires Start(k, s) && Solvent(s.money) && v in k.order
    ensures var t := WithdrawCommission(s, v);
      && s.money.bal - t.money.bal == At(s.money.commission, v) / PRECISION
      && (forall u :: At(t.money.commission, u) ==
            if u == v then At(s.money.commission, v) % PRECISION else At(s.money.commission, u))
  {
    hide Sound, Known, Solvent;
    PayCommissionKeeps(k, s.money, s.book, v);
    SolventPays(s.money, v, At(s.money.commission, v));
  }

  /** The reward, as cut to what is left, is paid in whole tokens; the delegation starts afresh where it was paid to. */
  lemma RewardsPaid(k: View, s: Distr, d: DelKey, height: nat)
    requires WellFormed(k) && Inv(k, s) && Fits(k, s.book, height) && Known(k, s) && Solvent(s.money)
    requires Withdrawable(k, s, d)
    ensures var t := WithdrawRewards(k, s, d, height);
      && s.money.bal - t.money.bal == Due(k, s, d, height) / PRECISION
      && Cur(t.book, d.val) == Current(0, Cur(s.book, d.val).period + 1)
      && t.book.starting == s.book.starting[d := StartingInfo(Cur(s.book, d.val).period, StakeOf(k, d), height)]
  {
    hide Sound, Known, Solvent, Pointers, IncrementPeriod, Settle, Due, PayRewards;
    var t := IncrementPeriod(k, s, d.val);
    IncrementIs(k, s, d.val);
    IncrementSolvent(k, s, d.val);
    WithdrawRewardsIs(k, s, d, height);
    SolventPays(t.money, d.val, Due(k, s, d, height));
    SettleKeeps(k, t, d, Due(k, s, d, height), height);
    PayRewardsBalance(t.money, d, Due(k, s, d, height));
    assert (t.book.starting - {d})[d := StartingInfo(Cur(s.book, d.val).period, StakeOf(k, d), height)] ==
           s.book.starting[d := StartingInfo(Cur(s.book, d.val).period, StakeOf(k, d), height)];
  }

  lemma IncrementSolvent(k: View, s: Distr, v: Addr)
    requires Inv(k, s) && Known(k, s) && Solvent(s.money) && v in k.order
    ensures Solvent(IncrementPeriod(k, s, v).money)
  {
    hide Sound, Known, Backing, NoDebts;
    var t := IncrementPeriod(k, s, v);
    IncrementIs(k, s, v);
    IncrementConserves(k, s, v);
    IncrementKeeps(k, s, v);
    IncrementKnown(k, s, v);
    OutstandingNotNegative(k, t);
  }

  lemma PayRewardsBalance(m: Money, d: DelKey, amount: int)
    ensures m.bal - PayRewards(m, d, amount).bal == amount / PRECISION
  {
  }

  // ----- the run -----

  /** Commissions whose withdrawal does not fail end below one token, the others stay. */
  lemma {:induction false} CommissionsPaid(k: View, s: Distr, vals: seq<Addr>, failed: set<Addr>, v: Addr)
    requires Start(k, s) && Solvent(s.money) && NoDup(vals) && forall u :: u in vals ==> u in k.order
    ensures At(WithdrawCommissions(s, vals, failed).money.commission, v) ==
            if v in vals && v !in failed then At(s.money.commission, v) % PRECISION else At(s.money.commission, v)
  {
    hide Start, Solvent, WithdrawCommission;
    if vals != [] {
      var init, u := vals[..|vals| - 1], vals[|vals| - 1];
      CommissionsKeep(k, s, init, failed);
      CommissionsSolvent(k, s, init, failed);
      CommissionsPaid(k, s, init, failed, v);
      if u !in failed {
        CommissionPaid(k, WithdrawCommissions(s, init, failed), u);
      }
      assert vals == init + [u];
    }
  }

  lemma IncrementKeepsCommission(k: View, s: Distr, v: Addr)
    ensures IncrementPeriod(k, s, v).money.commission == s.money.commission
  {
  }

  lemma SettleKeepsCommission(k: View, t: Distr, d: DelKey, amount: int, height: nat)
    ensures Settle(k, t, d, amount, height).money.commission == t.money.commission
  {
  }

  lemma RewardsKeepCommission(k: View, s: Distr, d: DelKey, height: nat)
    ensures WithdrawRewards(k, s, d, height).money.commission == s.money.commission
  {
    hide RewardsOf, IncrementPeriod, Settle, Payout;
    var t := IncrementPeriod(k, s, d.val);
    IncrementKeepsCommission(k, s, d.val);
    match RewardsOf(k, t.book, d, height)
    case None =>
    case Some(raw) => SettleKeepsCommission(k, t, d, Payout(t, d, raw), height);
  }

  lemma {:induction false} AllRewardsKeepCommission(k: View, s: Distr, dels: seq<DelKey>, height: nat,
                                                    failed: set<DelKey>)
    ensures WithdrawAllRewards(k, s, dels, height, failed).money.commission == s.money.commission
  {
    hide WithdrawRewards;
    if dels != [] {
      var init := dels[..|dels| - 1];
      AllRewardsKeepCommission(k, s, init, height, failed);
      RewardsKeepCommission(k, WithdrawAllRewards(k, s, init, height, failed), dels[|dels| - 1], height);
    }
  }

  /** The delegation e as the withdrawals of others leave it. */
  lemma OtherStartsKept(k: View, s: Distr, d: DelKey, height: nat)
    requires WellFormed(k) && Inv(k, s) && Fits(k, s.book, height) && Known(k, s) && Solvent(s.money)
    ensures var t := WithdrawRewards(k, s, d, height);
      && t.book.starting.Keys == s.book.starting.Keys
      && forall e :: e != d && e in s.book.starting ==> t.book.starting[e] == s.book.starting[e]
  {
    hide Inv, Known, Solvent, WithdrawRewards, Due;
    if Withdrawable(k, s, d) {
      RewardsPaid(k, s, d, height);
    } else {
      OutsiderUnpaid(k, s, d, height);
    }
  }

  lemma {:induction false} StartsKept(k: View, s: Distr, dels: seq<DelKey>, height: nat, failed: set<DelKey>)
    requires WellFormed(k) && Inv(k, s) && Fits(k, s.book, height) && Known(k, s) && Solvent(s.money)
    ensures var t := WithdrawAllRewards(k, s, dels, height, failed);
      && t.book.starting.Keys == s.book.starting.Keys
      && forall e :: e !in dels && e in s.book.starting ==> t.book.starting[e] == s.book.starting[e]
  {
    hide Inv, Known, Solvent, WithdrawRewards;
    if dels != [] {
      var init := dels[..|dels| - 1];
      StartsKept(k, s, init, height, failed);
      RewardsKeep(k, s, init, height, failed);
      AllRewardsSolvent(k, s, init, height, failed);
      OtherStartsKept(k, WithdrawAllRewards(k, s, init, height, failed), dels[|dels| - 1], height);
    }
  }

  /** The i-th delegation is paid what is due to it when its turn comes, and starts afresh. */
  lemma TurnPaid(k: View, s: Distr, dels: seq<DelKey>, height: nat, failed: set<DelKey>, i: nat)
    requires WellFormed(k) && Inv(k, s) && Fits(k, s.book, height) && Known(k, s) && Solvent(s.money)
    requires i < |dels| && dels[i] !in failed && dels[i] in k.dels && dels[i] in s.book.starting
    ensures var before := WithdrawAllRewards(k, s, dels[..i], height, failed);
      var after := WithdrawAllRewards(k, s, dels[..i + 1], height, failed);
      && before.money.bal - after.money.bal == Due(k, before, dels[i], height) / PRECISION
      && dels[i] in after.book.starting
      && after.book.starting[dels[i]] ==
         StartingInfo(Cur(before.book, dels[i].val).period, StakeOf(k, dels[i]), height)
  {
    hide Inv, Known, Solvent, WithdrawRewards, Due;
    StartsKept(k, s, dels[..i], height, failed);
    RewardsKeep(k, s, dels[..i], height, failed);
    AllRewardsSolvent(k, s, dels[..i], height, failed);
    assert dels[..i + 1][..i] == dels[..i];
    RewardsPaid(k, WithdrawAllRewards(k, s, dels[..i], height, failed), dels[i], height);
  }

  /** What was started stays so until the end of the loop. */
  lemma {:induction false} TurnKept(k: View, s: Distr, dels: seq<DelKey>, height: nat, failed: set<DelKey>, i: nat)
    requires WellFormed(k) && Inv(k, s) && Fits(k, s.book, height) && Known(k, s) && Solvent(s.money)
    requires NoDup(dels) && i < |dels| && dels[i] in s.book.starting
    ensures var after := WithdrawAllRewards(k, s, dels[..i + 1], height, failed);
      var end := WithdrawAllRewards(k, s, dels, height, failed);
      && dels[i] in end.book.starting && dels[i] in after.book.starting
      && end.book.starting[dels[i]] == after.book.starting[dels[i]]
    decreases |dels|
  {
    hide Inv, Known, Solvent, WithdrawRewards;
    StartsKept(k, s, dels, height, failed);
    StartsKept(k, s, dels[..i + 1], height, failed);
    if i == |dels| - 1 {
      assert dels[..i + 1] == dels;
    } else {
      var init := dels[..|dels| - 1];
      assert init[..i + 1] == dels[..i + 1];
      TurnKept(k, s, init, height, failed, i);
      StartsKept(k, s, init, height, failed);
      RewardsKeep(k, s, init, height, failed);
      AllRewardsSolvent(k, s, init, height, failed);
      OtherStartsKept(k, WithdrawAllRewards(k, s, init, height, failed), dels[|dels| - 1], height);
    }
  }

  /** A solvent account stays solvent through all withdrawals and through the whole preparation. */
  lemma RunSolvent(k: View, s: Distr, height: nat, f: Failures)
    requires Ready(k, s, height) && Solvent(s.money)
    ensures Solvent(Withdrawn(k, s, height, f).money)
    ensures Solvent(Prep(k, s, height, f).money)
  {
    hide Sound, Owed, Known, Backing, Prep;
    var t := WithdrawCommissions(s, k.order, f.commission);
    CommissionsKeep(k, s, k.order, f.commission);
    CommissionsSolvent(k, s, k.order, f.commission);
    StartIsInv(k, t);
    AllRewardsSolvent(k, t, k.dels, height, f.rewards);
    var w := Withdrawn(k, s, height, f);
    PrepIs(k, s, height, f);
    PrepConserves(k, s, height, f);
    SumNotNegative(w.money.outstanding);
  }

  lemma SumNotNegative(m: map<Addr, int>)
    requires forall v :: v in m ==> m[v] >= 0
    ensures Sum(m) >= 0
  {
    SumCovers(m, "");
  }

  /**
   From a solvent valid state everything is withdrawn except where a call fails: each commission
   ends at its fraction of a token, and each delegation that had a starting info is paid what is
   due to it when its turn comes, which is what it has accrued cut to what its validator has left
   (module Payouts says how much), and starts afresh at the export height.
  */
  lemma EverythingPaid(k: View, s: Distr, height: nat, f: Failures)
    requires Ready(k, s, height) && Solvent(s.money)
    ensures var t := WithdrawCommissions(s, k.order, f.commission);
      var w := Withdrawn(k, s, height, f);
      && (forall v :: v in k.order && v !in f.commission ==>
            At(w.money.commission, v) == At(s.money.commission, v) % PRECISION)
      && (forall i :: 0 <= i < |k.dels| && k.dels[i] !in f.rewards && k.dels[i] in s.book.starting ==>
            Turn(k, t, w, height, f.rewards, i))
  {
    hide Sound, Owed, Known, Solvent, Turn;
    var t := WithdrawCommissions(s, k.order, f.commission);
    CommissionsKeep(k, s, k.order, f.commission);
    CommissionsSolvent(k, s, k.order, f.commission);
    StartIsInv(k, t);
    AllRewardsKeepCommission(k, t, k.dels, height, f.rewards);
    forall v | v in k.order && v !in f.commission
      ensures At(t.money.commission, v) == At(s.money.commission, v) % PRECISION
    {
      CommissionsPaid(k, s, k.order, f.commission, v);
    }
    forall i | 0 <= i < |k.dels| && k.dels[i] !in f.rewards && k.dels[i] in s.book.starting
      ensures Turn(k, t, Withdrawn(k, s, height, f), height, f.rewards, i)
    {
      TurnIs(k, t, height, f.rewards, i);
    }
  }

  /**
   In the reward withdrawals from t to w, the i-th delegation receives the whole tokens due to it
   after the ones before it, and at the end starts at the period that its payment ended.
  */
  ghost predicate Turn(k: View, t: Distr, w: Distr, height: nat, failed: set<DelKey>, i: nat)
    requires i < |k.dels|
  {
    var before := WithdrawAllRewards(k, t, k.dels[..i], height, failed);
    var after := WithdrawAllRewards(k, t, k.dels[..i + 1], height, failed);
    var d := k.dels[i];
    && before.money.bal - after.money.bal == Due(k, before, d, height) / PRECISION
    && d in w.book.starting
    && w.book.starting[d] == StartingInfo(Cur(before.book, d.val).period, StakeOf(k, d), height)
  }

  lemma TurnIs(k: View, t: Distr, height: nat, failed: set<DelKey>, i: nat)
    requires WellFormed(k) && Inv(k, t) && Fits(k, t.book, height) && Known(k, t) && Solvent(t.money)
    requires i < |k.dels| && k.dels[i] !in failed && k.dels[i] in t.book.starting
    ensures Turn(k, t, WithdrawAllRewards(k, t, k.dels, height, failed), height, failed, i)
  {
    hide Inv, Known, Solvent, WithdrawRewards, WithdrawAllRewards, Due;
    TurnPaid(k, t, k.dels, height, failed, i);
    TurnKept(k, t, k.dels, height, failed, i);
  }
}
