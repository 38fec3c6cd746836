/**
 Which account every payout of a run reaches: the address that its owner chose in the table of
 withdraw addresses, or the owner itself.
*/
module Accounts {
  import opened Base
  import opened Sums
  import opened Distribution
  import opened Invariants
  import opened ZeroHeight
  import opened Rebuilding
  import opened ExportTheorems
  import opened Solvency
  import opened Payouts

  /** Whether account a is where this owner's payouts go. */
  predicate GoesTo(table: map<Addr, Addr>, owner: Addr, a: Addr) {
    if owner in table then table[owner] == a else owner == a
  }

  /** Whole tokens of commission that were paid to a. */
  ghost function CommissionsTo(s: Distr, vals: seq<Addr>, failed: set<Addr>, a: Addr): int {
    if vals == [] then 0
    else
      var before := WithdrawCommissions(s, vals[..|vals| - 1], failed);
      CommissionsTo(s, vals[..|vals| - 1], failed, a) +
      if GoesTo(s.money.withdrawTo, vals[|vals| - 1], a)
      then before.money.bal - WithdrawCommissions(s, vals, failed).money.bal
      else 0
  }

  /** Whole tokens of rewards that were paid to a. */
  ghost function RewardsTo(k: View, s: Distr, dels: seq<DelKey>, height: nat, failed: set<DelKey>, a: Addr): int {
    if dels == [] then 0
    else
      var before := WithdrawAllRewards(k, s, dels[..|dels| - 1], height, failed);
      RewardsTo(k, s, dels[..|dels| - 1], height, failed, a) +
      if GoesTo(s.money.withdrawTo, dels[|dels| - 1].del, a)
      then before.money.bal - WithdrawAllRewards(k, s, dels, height, failed).money.bal
      else 0
  }

  lemma SpentGoesTo(m: Money, n: Money, v: Addr, owner: Addr, a: Addr)
    requires Spends(m, n, v, owner)
    ensures At(n.accounts, a) == At(m.accounts, a) + if GoesTo(m.withdrawTo, owner, a) then m.bal - n.bal else 0
    ensures n.withdrawTo == m.withdrawTo
  {
  }

  lemma {:induction false} CommissionsReach(k: View, s: Distr, vals: seq<Addr>, failed: set<Addr>, a: Addr)
    requires Start(k, s) && forall v :: v in vals ==> v in k.order
    ensures var t := WithdrawCommissions(s, vals, failed);
      && t.money.withdrawTo == s.money.withdrawTo
      && At(t.money.accounts, a) == At(s.money.accounts, a) + CommissionsTo(s, vals, failed, a)
  {
    hide Start, Spends, WithdrawCommission, GoesTo;
    if vals != [] {
      var init, v := vals[..|vals| - 1], vals[|vals| - 1];
      var t := WithdrawCommissions(s, init, failed);
      CommissionsReach(k, s, init, failed, a);
      CommissionsKeep(k, s, init, failed);
      WithdrawCommissionSpends(k, t, v);
      SpentGoesTo(t.money, WithdrawCommission(t, v).money, v, v, a);
    }
  }

  lemma {:induction false} RewardsReach(k: View, s: Distr, dels: seq<DelKey>, height: nat, failed: set<DelKey>, a: Addr)
    requires WellFormed(k) && Inv(k, s) && Fits(k, s.book, height) && Known(k, s)
    ensures var t := WithdrawAllRewards(k, s, dels, height, failed);
      && t.money.withdrawTo == s.money.withdrawTo
      && At(t.money.accounts, a) == At(s.money.accounts, a) + RewardsTo(k, s, dels, height, failed, a)
  {
    hide Inv, Known, Spends, WithdrawRewards, GoesTo;
    if dels != [] {
      var init, d := dels[..|dels| - 1], dels[|dels| - 1];
      var t := WithdrawAllRewards(k, s, init, height, failed);
      RewardsReach(k, s, init, height, failed, a);
      RewardsKeep(k, s, init, height, failed);
      WithdrawRewardsSpends(k, t, d, height);
      SpentGoesTo(t.money, WithdrawRewards(k, t, d, height).money, d.val, d.del, a);
    }
  }

  /**
   Whatever fails, each account ends with what it had plus the payouts, of commissions and of
   rewards, whose owner's table entry, or own address, it is; the table stays as it was.
  */
  lemma PayoutsReach(k: View, s: Distr, height: nat, f: Failures, a: Addr)
    requires Ready(k, s, height)
    ensures var t, p := WithdrawCommissions(s, k.order, f.commission), Prep(k, s, height, f);
      && p.money.withdrawTo == s.money.withdrawTo
      && At(p.money.accounts, a) ==
         At(s.money.accounts, a) + CommissionsTo(s, k.order, f.commission, a)
         + RewardsTo(k, t, k.dels, height, f.rewards, a)
  {
    hide Sound, Known, Owed, Prep, CommissionsTo, RewardsTo;
    var t := WithdrawCommissions(s, k.order, f.commission);
    CommissionsKeep(k, s, k.order, f.commission);
    StartIsInv(k, t);
    CommissionsReach(k, s, k.order, f.commission, a);
    RewardsReach(k, t, k.dels, height, f.rewards, a);
    PrepIs(k, s, height, f);
  }

  // ----- the amounts of a solvent run -----

  /** Whole tokens of the commissions that go to a, failing calls aside. */
  function CommissionsDue(m: Money, vals: seq<Addr>, failed: set<Addr>, a: Addr): int {
    if vals == [] then 0
    else
      var v := vals[|vals| - 1];
      CommissionsDue(m, vals[..|vals| - 1], failed, a) +
      if v !in failed && GoesTo(m.withdrawTo, v, a) then At(m.commission, v) / PRECISION else 0
  }

  /** Whole tokens of the claims that go to a among the first n delegations, each cut to what is left at its turn. */
  function ClaimsDue(k: View, t: Distr, height: nat, failed: set<DelKey>, n: nat, a: Addr): int
    requires n <= |k.dels|
  {
    if n == 0 then 0
    else
      var d := k.dels[n - 1];
      var left := Max(0, Left(k, t, d.val) - EntitledSum(k, t, k.dels[..n - 1], height, failed, d.val));
      ClaimsDue(k, t, height, failed, n - 1, a) +
      if Served(k, t, failed, d) && GoesTo(t.money.withdrawTo, d.del, a)
      then Min(Entitled(k, t, d, height), left) / PRECISION
      else 0
  }

  lemma {:induction false} CommissionsToIs(k: View, s: Distr, vals: seq<Addr>, failed: set<Addr>, a: Addr)
    requires Start(k, s) && Solvent(s.money) && NoDup(vals) && forall v :: v in vals ==> v in k.order
    ensures CommissionsTo(s, vals, failed, a) == CommissionsDue(s.money, vals, failed, a)
  {
    hide Start, Solvent, WithdrawCommission, GoesTo;
    if vals != [] {
      var init, v := vals[..|vals| - 1], vals[|vals| - 1];
      CommissionsToIs(k, s, init, failed, a);
      CommissionsKeep(k, s, init, failed);
      CommissionsSolvent(k, s, init, failed);
      CommissionsPaid(k, s, init, failed, v);
      if v !in failed {
        CommissionPaid(k, WithdrawCommissions(s, init, failed), v);
      }
    }
  }

  lemma {:induction false} RewardsToIs(k: View, t: Distr, height: nat, failed: set<DelKey>, n: nat, a: Addr)
    requires Open(k, t, height) && n <= |k.dels|
    ensures RewardsTo(k, t, k.dels[..n], height, failed, a) == ClaimsDue(k, t, height, failed, n, a)
  {
    hide Inv, Known, Fits, Solvent, Entitled, Left, WithdrawRewards, GoesTo, EntitledSum;
    if n > 0 {
      RewardsToIs(k, t, height, failed, n - 1, a);
      assert k.dels[..n][..n - 1] == k.dels[..n - 1];
      if Served(k, t, failed, k.dels[n - 1]) {
        PaidAtTurn(k, t, height, failed, n - 1);
      } else {
        NotServed(k, t, k.dels[..n - 1], k.dels[n - 1], height, failed);
      }
    }
  }

  lemma NotServed(k: View, t: Distr, init: seq<DelKey>, d: DelKey, height: nat, failed: set<DelKey>)
    requires Open(k, t, height) && !Served(k, t, failed, d)
    ensures var s := WithdrawAllRewards(k, t, init, height, failed);
      d in failed || WithdrawRewards(k, s, d, height) == s
  {
    hide Inv, Known, Fits, Solvent, WithdrawRewards, WithdrawAllRewards;
    OpenThrough(k, t, init, height, failed);
    if d !in failed {
      OutsiderUnpaid(k, WithdrawAllRewards(k, t, init, height, failed), d, height);
    }
  }

  /**
   From a solvent state: each account gains the whole tokens of every commission, and of every
   claim cut to what is left at its turn, that go to it and whose call does not fail.
  */
  lemma AccountsOfRun(k: View, s: Distr, height: nat, f: Failures, a: Addr)
    requires Ready(k, s, height) && Solvent(s.money)
    ensures var t := WithdrawCommissions(s, k.order, f.commission);
      At(Prep(k, s, height, f).money.accounts, a) ==
      At(s.money.accounts, a) + CommissionsDue(s.money, k.order, f.commission, a)
      + ClaimsDue(k, t, height, f.rewards, |k.dels|, a)
  {
    hide Inv, Known, Fits, Solvent, Sound, Owed, Prep, CommissionsTo, RewardsTo, CommissionsDue, ClaimsDue;
    var t := WithdrawCommissions(s, k.order, f.commission);
    PayoutsReach(k, s, height, f, a);
    OpenAfterCommissions(k, s, height, f);
    CommissionsToIs(k, s, k.order, f.commission, a);
    RewardsToIs(k, t, height, f.rewards, |k.dels|, a);
    assert k.dels[..|k.dels|] == k.dels;
  }
}
