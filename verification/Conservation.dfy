/** Every step of the export conserves value, from every state and whatever fails. */
module Conservation {
  import opened Base
  import opened Sums
  import opened Distribution
  import opened ZeroHeight

  /** What the module account holds beyond the community pool and all outstanding rewards. */
  ghost function Backing(m: Money): int { m.bal * PRECISION - m.pool - Sum(m.outstanding) }

  /** All whole tokens, wherever they are. */
  ghost function Supply(m: Money): int { m.bal + Sum(m.accounts) }

  ghost predicate Conserved(m: Money, n: Money) {
    Backing(n) == Backing(m) && Supply(n) == Supply(m)
  }

  lemma PayConserves(m: Money, owner: Addr, whole: int)
    ensures Supply(Pay(m, owner, whole)) == Supply(m)
    ensures Pay(m, owner, whole).bal == m.bal - whole
  {
    var a := WithdrawAddr(m, owner);
    SumUpdate(m.accounts, a, At(m.accounts, a) + whole);
  }

  lemma PoolRewardsConserves(m: Money, v: Addr, amount: int)
    ensures Conserved(m, PoolRewards(m, v, amount))
  {
    SumUpdate(m.outstanding, v, At(m.outstanding, v) - amount);
  }

  lemma PayCommissionConserves(m: Money, v: Addr, whole: int)
    ensures Conserved(m, PayCommission(m, v, whole))
  {
    var out := At(m.outstanding, v) - whole * PRECISION;
    var n := m.(commission := m.commission[v := At(m.commission, v) - whole * PRECISION],
                outstanding := m.outstanding[v := out]);
    SumUpdate(m.outstanding, v, out);
    PayConserves(n, v, whole);
  }

  lemma PayRewardsConserves(m: Money, d: DelKey, amount: int)
    ensures Conserved(m, PayRewards(m, d, amount))
  {
    PayConserves(m, d.del, amount / PRECISION);
    SumUpdate(m.outstanding, d.val, At(m.outstanding, d.val) - amount);
  }

  lemma IncrementConserves(k: View, s: Distr, v: Addr)
    ensures Conserved(s.money, IncrementPeriod(k, s, v).money)
  {
    PoolRewardsConserves(s.money, v, Cur(s.book, v).rewards);
  }

  lemma WithdrawCommissionConserves(s: Distr, v: Addr)
    ensures Conserved(s.money, WithdrawCommission(s, v).money)
  {
    PayCommissionConserves(s.money, v, At(s.money.commission, v) / PRECISION);
  }

  lemma WithdrawRewardsConserves(k: View, s: Distr, d: DelKey, height: nat)
    ensures Conserved(s.money, WithdrawRewards(k, s, d, height).money)
  {
    hide Conserved, IncrementPeriod, RewardsOf, PayRewards;
    var t := IncrementPeriod(k, s, d.val);
    IncrementConserves(k, s, d.val);
    ConservedTrans(s.money, s.money, t.money);
    match RewardsOf(k, t.book, d, height)
    case None =>
    case Some(raw) =>
      PayRewardsConserves(t.money, d, Payout(t, d, raw));
      ConservedTrans(s.money, t.money, PayRewards(t.money, d, Payout(t, d, raw)));
  }

  lemma ConservedTrans(a: Money, b: Money, c: Money)
    ensures Conserved(a, a)
    ensures Conserved(a, b) && Conserved(b, c) ==> Conserved(a, c)
  {
  }

  lemma ReinitConserves(s: Distr, v: Addr)
    ensures Conserved(s.money, Reinit(s, v).money)
  {
    SumUpdate(s.money.outstanding, v, 0);
  }

  lemma {:induction false} WithdrawCommissionsConserves(s: Distr, vals: seq<Addr>, failed: set<Addr>)
    ensures Conserved(s.money, WithdrawCommissions(s, vals, failed).money)
  {
    if vals != [] {
      var init := vals[..|vals| - 1];
      WithdrawCommissionsConserves(s, init, failed);
      WithdrawCommissionConserves(WithdrawCommissions(s, init, failed), vals[|vals| - 1]);
    }
  }

  lemma {:induction false} WithdrawAllRewardsConserves(k: View, s: Distr, dels: seq<DelKey>, height: nat,
                                                       failed: set<DelKey>)
    ensures Conserved(s.money, WithdrawAllRewards(k, s, dels, height, failed).money)
  {
    if dels != [] {
      var init := dels[..|dels| - 1];
      WithdrawAllRewardsConserves(k, s, init, height, failed);
      WithdrawRewardsConserves(k, WithdrawAllRewards(k, s, init, height, failed), dels[|dels| - 1], height);
    }
  }

  lemma {:induction false} ReinitAllConserves(s: Distr, vals: seq<Addr>)
    ensures Conserved(s.money, ReinitAll(s, vals).money)
  {
    if vals != [] {
      ReinitAllConserves(s, vals[..|vals| - 1]);
      ReinitConserves(ReinitAll(s, vals[..|vals| - 1]), vals[|vals| - 1]);
    }
  }

  lemma {:induction false} ReplayConserves(k: View, s: Distr, dels: seq<DelKey>)
    ensures Conserved(s.money, Replay(k, s, dels).money)
  {
    if dels != [] {
      ReplayConserves(k, s, dels[..|dels| - 1]);
      IncrementConserves(k, Replay(k, s, dels[..|dels| - 1]), dels[|dels| - 1].val);
    }
  }

  /** The whole preparation conserves value: nothing is assumed of the state or of what fails. */
  lemma PrepConserves(k: View, s: Distr, height: nat, f: Failures)
    ensures Conserved(s.money, Withdrawn(k, s, height, f).money)
    ensures Conserved(s.money, Prep(k, s, height, f).money)
  {
    var t := WithdrawCommissions(s, k.order, f.commission);
    WithdrawCommissionsConserves(s, k.order, f.commission);
    WithdrawAllRewardsConserves(k, t, k.dels, height, f.rewards);
    var u := Withdrawn(k, s, height, f);
    ReinitAllConserves(Erase(u), k.order);
    ReplayConserves(k, ReinitAll(Erase(u), k.order), k.dels);
  }
}
