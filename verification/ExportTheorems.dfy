/** What the zero-height preparation guarantees of the distribution state. */
module ExportTheorems {
  import opened Base
  import opened Sums
  import opened Distribution
  import opened Invariants
  import opened ZeroHeight
  import opened Conservation
  import opened Rebuilding
  import opened ClosedForm

  /** Each validator's commission and current rewards are covered by what is outstanding. */
  ghost predicate Owed(k: View, m: Money, b: Book) {
    forall v :: v in k.order ==>
      && 0 <= Cur(b, v).rewards && 0 <= At(m.commission, v)
      && At(m.commission, v) + Cur(b, v).rewards <= At(m.outstanding, v)
  }

  /** A state the chain may be in when it is exported. */
  ghost predicate Start(k: View, s: Distr) {
    WellFormed(k) && Known(k, s) && !s.panicked && Sound(k, s.book) && Owed(k, s.money, s.book)
  }

  /** A state that may be exported at this height: the keeper accepts every slashed stake. */
  ghost predicate Ready(k: View, s: Distr, height: nat) {
    Start(k, s) && Fits(k, s.book, height)
  }

  // ----- withdrawals -----

  lemma PayCommissionKeeps(k: View, m: Money, b: Book, v: Addr)
    requires Owed(k, m, b) && v in k.order
    ensures 0 <= At(m.commission, v) / PRECISION * PRECISION <= At(m.outstanding, v)
    ensures Owed(k, PayCommission(m, v, At(m.commission, v) / PRECISION), b)
  {
    var whole := At(m.commission, v) / PRECISION;
    var n := PayCommission(m, v, whole);
    assert n.commission == m.commission[v := At(m.commission, v) - whole * PRECISION];
    assert n.outstanding == m.outstanding[v := At(m.outstanding, v) - whole * PRECISION];
  }

  lemma WithdrawCommissionKeeps(k: View, s: Distr, v: Addr)
    requires Start(k, s) && v in k.order
    ensures Start(k, WithdrawCommission(s, v)) && WithdrawCommission(s, v).book == s.book
  {
    hide Sound, Owed;
    PayCommissionKeeps(k, s.money, s.book, v);
    var n := PayCommission(s.money, v, At(s.money.commission, v) / PRECISION);
    assert n.commission.Keys == s.money.commission.Keys + {v};
    assert n.outstanding.Keys == s.money.outstanding.Keys + {v};
  }

  lemma {:induction false} CommissionsKeep(k: View, s: Distr, vals: seq<Addr>, failed: set<Addr>)
    requires Start(k, s) && forall v :: v in vals ==> v in k.order
    ensures Start(k, WithdrawCommissions(s, vals, failed))
    ensures WithdrawCommissions(s, vals, failed).book == s.book
  {
    hide Start;
    if vals != [] {
      CommissionsKeep(k, s, vals[..|vals| - 1], failed);
      WithdrawCommissionKeeps(k, WithdrawCommissions(s, vals[..|vals| - 1], failed), vals[|vals| - 1]);
    }
  }

  lemma StartIsInv(k: View, s: Distr)
    requires Start(k, s)
    ensures Inv(k, s) && Known(k, s)
  {
  }

  lemma SettleKnown(k: View, t: Distr, d: DelKey, amount: int, height: nat)
    requires Known(k, t) && d in k.dels && d.val in k.order && d in t.book.starting
    requires Cur(t.book, d.val).period >= 1
    requires Settle(k, t, d, amount, height) ==
             Distr(PayRewards(t.money, d, amount), Restart(k, t.book, d, height), false)
    ensures Known(k, Settle(k, t, d, amount, height))
  {
    var m := PayRewards(t.money, d, amount);
    assert m.outstanding.Keys == t.money.outstanding.Keys + {d.val};
    assert m.commission == t.money.commission;
  }

  lemma IncrementKnown(k: View, s: Distr, v: Addr)
    requires Known(k, s) && v in k.order
    ensures Known(k, IncrementPeriod(k, s, v))
  {
    var m := PoolRewards(s.money, v, Cur(s.book, v).rewards);
    assert m.outstanding.Keys == s.money.outstanding.Keys + {v};
  }

  lemma WithdrawRewardsKnown(k: View, s: Distr, d: DelKey, height: nat)
    requires WellFormed(k) && Inv(k, s) && Fits(k, s.book, height) && Known(k, s)
    ensures Known(k, WithdrawRewards(k, s, d, height))
  {
    hide Sound, Known, Pointers, IncrementPeriod, Settle, Due, Covered;
    if Withdrawable(k, s, d) {
      var t := IncrementPeriod(k, s, d.val);
      WithdrawRewardsIs(k, s, d, height);
      IncrementKnown(k, s, d.val);
      SettleKeeps(k, t, d, Due(k, s, d, height), height);
      SettleKnown(k, t, d, Due(k, s, d, height), height);
    }
  }

  /** Through every prefix of the reward withdrawals, whatever fails, the invariant holds. */
  lemma {:induction false} RewardsKeep(k: View, s: Distr, dels: seq<DelKey>, height: nat, failed: set<DelKey>)
    requires WellFormed(k) && Inv(k, s) && Fits(k, s.book, height) && Known(k, s)
    ensures Inv(k, WithdrawAllRewards(k, s, dels, height, failed))
    ensures Fits(k, WithdrawAllRewards(k, s, dels, height, failed).book, height)
    ensures Known(k, WithdrawAllRewards(k, s, dels, height, failed))
  {
    hide Inv, Known;
    if dels != [] {
      var init, d := dels[..|dels| - 1], dels[|dels| - 1];
      RewardsKeep(k, s, init, height, failed);
      WithdrawRewardsKeeps(k, WithdrawAllRewards(k, s, init, height, failed), d, height);
      WithdrawRewardsKnown(k, WithdrawAllRewards(k, s, init, height, failed), d, height);
    }
  }

  lemma WithdrawnKeeps(k: View, s: Distr, height: nat, f: Failures)
    requires Ready(k, s, height)
    ensures Inv(k, Withdrawn(k, s, height, f)) && Known(k, Withdrawn(k, s, height, f))
    ensures Fits(k, Withdrawn(k, s, height, f).book, height)
  {
    hide Inv, Known, Sound, Owed;
    CommissionsKeep(k, s, k.order, f.commission);
    StartIsInv(k, WithdrawCommissions(s, k.order, f.commission));
    RewardsKeep(k, WithdrawCommissions(s, k.order, f.commission), k.dels, height, f.rewards);
  }

  // ----- the equation is broken, then restored -----

  /** Erasing breaks the reference-count equation exactly when there is a validator. */
  lemma EraseBreaksRefs(k: View, s: Distr)
    requires WellFormed(k) && Known(k, s) && Sound(k, s.book)
    ensures RefsMatch(Erase(s).book) <==> k.order == []
  {
    var b := Erase(s).book;
    if k.order != [] {
      var v := k.order[0];
      assert Cur(b, v).period >= 1;
      assert Refs(b, LastEnded(b, v)) == 0 && Last(b, LastEnded(b, v)) == 1;
    } else {
      forall r ensures Refs(b, r) == Last(b, r) + Pointers(b, r) {
        assert Starts(b, r) == {} && SlashesAt(b, r) == {};
      }
    }
  }

  /** So it is in every run, in the state that the withdrawals leave, whatever fails. */
  lemma RunBreaksRefs(k: View, s: Distr, height: nat, f: Failures)
    requires Ready(k, s, height)
    ensures RefsMatch(Withdrawn(k, s, height, f).book)
    ensures RefsMatch(Erase(Withdrawn(k, s, height, f)).book) <==> k.order == []
  {
    hide Known, Owed, Withdrawn, Pointers, OnePointer, Monotone, Shape, RefsMatch, Erase;
    WithdrawnKeeps(k, s, height, f);
    EraseBreaksRefs(k, Withdrawn(k, s, height, f));
  }

  /**
   From any valid state and whatever withdrawals fail, the preparation panics nowhere and ends
   in the state that depends only on the staking state and the money left after withdrawing.
  */
  lemma PrepIs(k: View, s: Distr, height: nat, f: Failures)
    requires Ready(k, s, height)
    ensures Prep(k, s, height, f) ==
            Distr(Donated(k, Withdrawn(k, s, height, f).money), FreshBook(k, k.dels), false)
  {
    hide Sound, Owed, Known, Withdrawn, Rebuild, Covered;
    WithdrawnKeeps(k, s, height, f);
    RebuildIs(k, Withdrawn(k, s, height, f));
  }

  /**
   The preparation ends in a valid state, ready to be exported again at any height: the equation
   holds for all validators and periods.
  */
  lemma PrepRestores(k: View, s: Distr, height: nat, f: Failures)
    requires Ready(k, s, height)
    ensures Start(k, Prep(k, s, height, f))
    ensures forall height': nat :: Fits(k, Prep(k, s, height, f).book, height')
  {
    hide Sound, Prep, Fits;
    PrepIs(k, s, height, f);
    FreshSound(k, k.dels);
    FreshKnown(k, k.dels);
    forall height': nat ensures Fits(k, FreshBook(k, k.dels), height') {
      FreshFits(k, height');
    }
  }

  lemma PrepReady(k: View, s: Distr, height: nat, f: Failures)
    requires Ready(k, s, height)
    ensures forall height': nat :: Ready(k, Prep(k, s, height, f), height')
  {
    hide Start, Fits, Prep;
    PrepRestores(k, s, height, f);
  }

  lemma FreshFits(k: View, height: nat)
    requires WellFormed(k)
    ensures Fits(k, FreshBook(k, k.dels), height)
  {
    hide FreshBook, Sound;
    FreshSound(k, k.dels);
    var b := FreshBook(k, k.dels);
    forall d | d in b.starting ensures StakeFits(k, b, d, height) {
      var i :| 0 <= i < |k.dels| && k.dels[i] == d;
      StartsClosed(k, k.dels, i);
    }
  }

  lemma {:induction false} FreshKnown(k: View, dels: seq<DelKey>)
    requires forall d :: d in dels ==> d.val in k.order
    ensures Covers(k.order, FreshBook(k, dels).current.Keys)
  {
    if dels != [] {
      FreshKnown(k, dels[..|dels| - 1]);
    }
  }

  /** Every stored count is 1 or 2, so neither of the keeper's count panics can be reached. */
  lemma CountsBounded(k: View, s: Distr, r: RecKey)
    requires Inv(k, s) && r in s.book.history
    ensures 1 <= s.book.history[r].refs <= 2
  {
    assert Refs(s.book, r) == Last(s.book, r) + Pointers(s.book, r);
  }

  /**
   The same while the delegations are replayed over stale starting infos: after every prefix of
   the list each stored count is 1 or 2, and the last ended period of every validator is recorded.
  */
  lemma ReplayCountsBounded(k: View, s: Distr, height: nat, f: Failures, n: nat)
    requires Ready(k, s, height) && n <= |k.dels|
    ensures var t := Replay(k, ReinitAll(Erase(Withdrawn(k, s, height, f)), k.order), k.dels[..n]);
      !t.panicked && Counts(k, t.book)
  {
    hide Known, Owed, Withdrawn, Sound, Replay, ReinitAll, Erase, FreshBook, Fits, Over, Donated;
    WithdrawnKeeps(k, s, height, f);
    ReplayedIs(k, Withdrawn(k, s, height, f), k.dels[..n]);
    FreshSound(k, k.dels[..n]);
    SoundCounts(k, FreshBook(k, k.dels[..n]));
    OverCounts(k, Withdrawn(k, s, height, f).book.starting, FreshBook(k, k.dels[..n]));
  }

  /** Counts of 1 or 2, and a record for every last ended period. */
  ghost predicate Counts(k: View, b: Book) {
    && (forall r :: r in b.history ==> 1 <= b.history[r].refs <= 2)
    && (forall v :: v in k.order ==> Cur(b, v).period >= 1 && LastEnded(b, v) in b.history)
  }

  lemma OverCounts(k: View, stale: map<DelKey, StartingInfo>, b: Book)
    requires Counts(k, b)
    ensures Counts(k, Over(stale, b))
  {
    assert forall v :: Cur(Over(stale, b), v) == Cur(b, v);
  }

  lemma SoundCounts(k: View, b: Book)
    requires Sound(k, b)
    ensures Counts(k, b)
  {
    forall r | r in b.history ensures 1 <= b.history[r].refs <= 2 {
      assert Refs(b, r) == Last(b, r) + Pointers(b, r);
    }
    forall v | v in k.order ensures Cur(b, v).period >= 1 && LastEnded(b, v) in b.history {
      LastIsRecorded(k, b, v);
    }
  }

  // ----- the final state in closed form -----

  /**
   A validator with n delegations ends at period n + 1 with exactly the records 1..n, or record 0
   if n is 0, all ratios zero; its j-th delegation starts at period j, at height 0.
  */
  lemma PrepClosedForm(k: View, s: Distr, height: nat, f: Failures)
    requires Ready(k, s, height)
    ensures var b := Prep(k, s, height, f).book;
      && (forall v :: v in k.order ==> Closed(b, v, Count(k.dels, v)))
      && (forall i :: 0 <= i < |k.dels| ==>
            && k.dels[i] in b.starting
            && b.starting[k.dels[i]] == StartingInfo(Count(k.dels[..i + 1], k.dels[i].val), StakeOf(k, k.dels[i]), 0))
  {
    hide Sound, Prep, Closed, Known, Owed;
    PrepIs(k, s, height, f);
    var b := FreshBook(k, k.dels);
    forall v | v in k.order ensures Closed(b, v, Count(k.dels, v)) {
      RecordsClosed(k, k.dels, v);
    }
    forall i | 0 <= i < |k.dels|
      ensures k.dels[i] in b.starting &&
        b.starting[k.dels[i]] == StartingInfo(Count(k.dels[..i + 1], k.dels[i].val), StakeOf(k, k.dels[i]), 0)
    {
      StartsClosed(k, k.dels, i);
    }
  }

  /** The starting infos are those of the delegations, and each points at an existing record. */
  lemma NoStaleReferences(k: View, s: Distr, height: nat, f: Failures)
    requires Ready(k, s, height)
    ensures var t := Prep(k, s, height, f);
      && (forall d :: d in t.book.starting <==> d in k.dels)
      && (forall d :: d in t.book.starting ==>
            && t.book.starting[d].height == 0
            && RecKey(d.val, t.book.starting[d].period) in t.book.history)
      && t.book.slashes == map[]
  {
    hide Prep, Owed, Known, Sound;
    PrepIs(k, s, height, f);
    FreshSound(k, k.dels);
    forall d | d in k.dels
      ensures var b := FreshBook(k, k.dels);
        b.starting[d].height == 0 && RecKey(d.val, b.starting[d].period) in b.history
    {
      FreshStartsRecorded(k, d);
    }
  }

  lemma FreshStartsRecorded(k: View, d: DelKey)
    requires WellFormed(k) && d in k.dels && d in FreshBook(k, k.dels).starting
    ensures var b := FreshBook(k, k.dels);
      b.starting[d].height == 0 && RecKey(d.val, b.starting[d].period) in b.history
  {
    hide Pointers, OnePointer, Monotone, FreshBook;
    FreshSound(k, k.dels);
    var b := FreshBook(k, k.dels);
    var i :| 0 <= i < |k.dels| && k.dels[i] == d;
    StartsClosed(k, k.dels, i);
    assert d.del in Starts(b, RecKey(d.val, b.starting[d].period));
    PointedIsRecorded(b, RecKey(d.val, b.starting[d].period));
  }

  /** Nobody is owed anything any more. */
  lemma NothingOwed(k: View, s: Distr, height: nat, f: Failures)
    requires Ready(k, s, height)
    ensures var t := Prep(k, s, height, f);
      && (forall v :: At(t.money.outstanding, v) == 0 && At(t.money.commission, v) == 0)
      && (forall v :: Cur(t.book, v).rewards == 0)
      && Sum(t.money.outstanding) == 0
  {
    hide Sound, Prep, Owed, Known;
    PrepIs(k, s, height, f);
    FreshSound(k, k.dels);
    SumZero(Prep(k, s, height, f).money.outstanding);
  }

  // ----- where the value goes -----

  /** The pool gains all that was outstanding except the whole tokens that were paid out. */
  lemma PoolGain(k: View, s: Distr, height: nat, f: Failures)
    requires Ready(k, s, height)
    ensures var t := Prep(k, s, height, f);
      var paid := s.money.bal - t.money.bal;
      && t.money.pool == s.money.pool + Sum(s.money.outstanding) - paid * PRECISION
      && Sum(t.money.accounts) == Sum(s.money.accounts) + paid
  {
    hide Prep, Start, Withdrawn;
    PrepConserves(k, s, height, f);
    NothingOwed(k, s, height, f);
  }

  /**
   From m to n, the whole tokens that left the module account came out of v's outstanding rewards
   and went to the address that the owner chose in the table, or to the owner when there is none;
   other validators and accounts, and the table, are as before.
  */
  ghost predicate Spends(m: Money, n: Money, v: Addr, owner: Addr) {
    && n.withdrawTo == m.withdrawTo
    && 0 <= m.bal - n.bal
    && (m.bal - n.bal) * PRECISION <= At(m.outstanding, v) - At(n.outstanding, v)
    && (forall u :: u != v ==> At(n.outstanding, u) == At(m.outstanding, u))
    && (owner in m.withdrawTo ==> Receives(m, n, m.withdrawTo[owner]))
    && (owner !in m.withdrawTo ==> Receives(m, n, owner))
  }

  /** What left the module account went to this one account. */
  ghost predicate Receives(m: Money, n: Money, account: Addr) {
    forall a :: At(n.accounts, a) == At(m.accounts, a) + if a == account then m.bal - n.bal else 0
  }

  lemma PayCommissionSpends(k: View, m: Money, b: Book, v: Addr)
    requires Owed(k, m, b) && v in k.order
    ensures Spends(m, PayCommission(m, v, At(m.commission, v) / PRECISION), v, v)
  {
  }

  lemma WithdrawCommissionSpends(k: View, s: Distr, v: Addr)
    requires Start(k, s) && v in k.order
    ensures Spends(s.money, WithdrawCommission(s, v).money, v, v)
  {
    hide Sound, Owed, Known;
    PayCommissionSpends(k, s.money, s.book, v);
  }

  lemma PayRewardsSpends(m: Money, d: DelKey, amount: int)
    requires 0 <= amount
    ensures var n := PayRewards(m, d, amount);
      && Spends(m, n, d.val, d.del)
      && At(n.outstanding, d.val) == At(m.outstanding, d.val) - amount
      && 0 <= n.pool - m.pool < PRECISION
      && n.pool - m.pool == amount - (m.bal - n.bal) * PRECISION
  {
  }

  /**
   A reward withdrawal takes only from its validator, pays only its delegator, and leaves in the pool
   less than one token of its payout, besides the rewards of a validator that has no tokens.
  */
  lemma WithdrawRewardsSpends(k: View, s: Distr, d: DelKey, height: nat)
    requires WellFormed(k) && Inv(k, s) && Fits(k, s.book, height)
    ensures var t := WithdrawRewards(k, s, d, height);
      var swept := if Tokens(k, d.val) == 0 then Cur(s.book, d.val).rewards else 0;
      && Spends(s.money, t.money, d.val, d.del)
      && (t == s || 0 <= t.money.pool - s.money.pool - swept < PRECISION)
      && t.money.pool - s.money.pool ==
         At(s.money.outstanding, d.val) - At(t.money.outstanding, d.val) - (s.money.bal - t.money.bal) * PRECISION
  {
    hide Sound, Pointers, IncrementPeriod, Settle, Due, Restart, EndPeriod, PayRewards;
    if Withdrawable(k, s, d) {
      var t := IncrementPeriod(k, s, d.val);
      IncrementIs(k, s, d.val);
      WithdrawRewardsIs(k, s, d, height);
      SettleKeeps(k, t, d, Due(k, s, d, height), height);
      PayRewardsSpends(t.money, d, Due(k, s, d, height));
    }
  }

  /** Whole tokens paid for v by the commission withdrawals. */
  ghost function PaidCommission(s: Distr, vals: seq<Addr>, failed: set<Addr>, v: Addr): int {
    if vals == [] then 0
    else
      var before := WithdrawCommissions(s, vals[..|vals| - 1], failed);
      PaidCommission(s, vals[..|vals| - 1], failed, v) +
      if vals[|vals| - 1] == v then before.money.bal - WithdrawCommissions(s, vals, failed).money.bal else 0
  }

  /** Whole tokens paid for v's delegations by the reward withdrawals. */
  ghost function PaidRewards(k: View, s: Distr, dels: seq<DelKey>, height: nat, failed: set<DelKey>, v: Addr): int {
    if dels == [] then 0
    else
      var before := WithdrawAllRewards(k, s, dels[..|dels| - 1], height, failed);
      PaidRewards(k, s, dels[..|dels| - 1], height, failed, v) +
      if dels[|dels| - 1].val == v
      then before.money.bal - WithdrawAllRewards(k, s, dels, height, failed).money.bal
      else 0
  }

  lemma {:induction false} PaidCommissionCovered(k: View, s: Distr, vals: seq<Addr>, failed: set<Addr>, v: Addr)
    requires Start(k, s) && forall u :: u in vals ==> u in k.order
    ensures 0 <= PaidCommission(s, vals, failed, v) * PRECISION
              <= At(s.money.outstanding, v) - At(WithdrawCommissions(s, vals, failed).money.outstanding, v)
  {
    hide Start;
    if vals != [] {
      var init, u := vals[..|vals| - 1], vals[|vals| - 1];
      PaidCommissionCovered(k, s, init, failed, v);
      CommissionsKeep(k, s, init, failed);
      WithdrawCommissionSpends(k, WithdrawCommissions(s, init, failed), u);
    }
  }

  lemma {:induction false} PaidRewardsCovered(k: View, s: Distr, dels: seq<DelKey>, height: nat,
                                              failed: set<DelKey>, v: Addr)
    requires WellFormed(k) && Inv(k, s) && Fits(k, s.book, height) && Known(k, s)
    ensures 0 <= PaidRewards(k, s, dels, height, failed, v) * PRECISION
              <= At(s.money.outstanding, v)
                 - At(WithdrawAllRewards(k, s, dels, height, failed).money.outstanding, v)
  {
    hide Inv, Known, WithdrawRewards;
    if dels != [] {
      var init, d := dels[..|dels| - 1], dels[|dels| - 1];
      PaidRewardsCovered(k, s, init, height, failed, v);
      RewardsKeep(k, s, init, height, failed);
      WithdrawRewardsSpends(k, WithdrawAllRewards(k, s, init, height, failed), d, height);
    }
  }

  /** All that is paid for a validator, commission and rewards, was outstanding for it at the start. */
  lemma PaidWithinOutstanding(k: View, s: Distr, height: nat, f: Failures, v: Addr)
    requires Ready(k, s, height) && v in k.order
    ensures var t := WithdrawCommissions(s, k.order, f.commission);
      0 <= (PaidCommission(s, k.order, f.commission, v) + PaidRewards(k, t, k.dels, height, f.rewards, v)) * PRECISION
        <= At(s.money.outstanding, v)
  {
    hide Sound, Known, Owed, Spends;
    var t := WithdrawCommissions(s, k.order, f.commission);
    CommissionsKeep(k, s, k.order, f.commission);
    StartIsInv(k, t);
    PaidCommissionCovered(k, s, k.order, f.commission, v);
    PaidRewardsCovered(k, t, k.dels, height, f.rewards, v);
    WithdrawnKeeps(k, s, height, f);
  }

  // ----- running it twice -----

  ghost predicate Quiet(k: View, m: Money) {
    m.outstanding == ZeroAt(k.order) && m.commission == ZeroAt(k.order)
  }

  lemma {:induction false} QuietCommissions(k: View, s: Distr, vals: seq<Addr>, failed: set<Addr>)
    requires Quiet(k, s.money)
    ensures WithdrawCommissions(s, vals, failed) == s
  {
    if vals != [] {
      QuietCommissions(k, s, vals[..|vals| - 1], failed);
    }
  }

  lemma QuietRewards(k: View, s: Distr, d: DelKey, height: nat)
    requires WellFormed(k) && Inv(k, s) && Fits(k, s.book, height) && Quiet(k, s.money)
    ensures WithdrawRewards(k, s, d, height).money == s.money
  {
    hide Sound, Pointers, IncrementPeriod, Settle, Due, Restart, EndPeriod;
    if Withdrawable(k, s, d) {
      var t := IncrementPeriod(k, s, d.val);
      IncrementIs(k, s, d.val);
      WithdrawRewardsIs(k, s, d, height);
      assert PoolRewards(s.money, d.val, 0).outstanding == s.money.outstanding;
      SettleKeeps(k, t, d, Due(k, s, d, height), height);
      assert PayRewards(s.money, d, 0).outstanding == s.money.outstanding;
    }
  }

  lemma {:induction false} QuietAllRewards(k: View, s: Distr, dels: seq<DelKey>, height: nat, failed: set<DelKey>)
    requires WellFormed(k) && Inv(k, s) && Fits(k, s.book, height) && Known(k, s) && Quiet(k, s.money)
    ensures WithdrawAllRewards(k, s, dels, height, failed).money == s.money
  {
    hide Inv, Known, WithdrawRewards;
    if dels != [] {
      QuietAllRewards(k, s, dels[..|dels| - 1], height, failed);
      RewardsKeep(k, s, dels[..|dels| - 1], height, failed);
      QuietRewards(k, WithdrawAllRewards(k, s, dels[..|dels| - 1], height, failed), dels[|dels| - 1], height);
    }
  }

  /** A second preparation, at any height and whatever fails then, changes nothing at all. */
  lemma PrepIdempotent(k: View, s: Distr, height: nat, f: Failures, height': nat, f': Failures)
    requires Ready(k, s, height)
    ensures Prep(k, Prep(k, s, height, f), height', f') == Prep(k, s, height, f)
  {
    hide Prep, Sound, Owed, Known, Covered;
    var t := Prep(k, s, height, f);
    PrepIs(k, s, height, f);
    PrepRestores(k, s, height, f);
    PrepIs(k, t, height', f');
    QuietCommissions(k, t, k.order, f'.commission);
    StartIsInv(k, t);
    QuietAllRewards(k, t, k.dels, height', f'.rewards);
    SumZero(ZeroAt(k.order));
  }
}
