/**
 What the distribution state promises between keeper calls, and that each call keeps it.
 The centre is the reference-count equation: the count stored for a period is the number of
 records that point at it.
*/
module Invariants {
  import opened Base
  import opened Sums
  import opened Distribution

  ghost predicate WellFormed(k: View) {
    && NoDup(k.order)
    && NoDup(k.dels)
    && forall d :: d in k.dels ==> d.val in k.order && StakeOf(k, d) <= WorthOf(k, d)
  }

  /** Delegators whose delegation started at period r.period of r.val. */
  ghost function Starts(b: Book, r: RecKey): set<Addr> {
    set d | d in b.starting && d.val == r.val && b.starting[d].period == r.period :: d.del
  }

  /** Positions of r.val's slash events that ended period r.period. */
  ghost function SlashesAt(b: Book, r: RecKey): set<int> {
    if r.val in b.slashes
    then set i | 0 <= i < |b.slashes[r.val]| && b.slashes[r.val][i].period == r.period
    else {}
  }

  ghost function Pointers(b: Book, r: RecKey): nat {
    |Starts(b, r)| + |SlashesAt(b, r)|
  }

  /** The last ended period of a validator is referenced by its current rewards. */
  ghost function Last(b: Book, r: RecKey): nat {
    if Cur(b, r.val).period == r.period + 1 then 1 else 0
  }

  /** The reference-count equation: one reference from the last ended period, one per pointer. */
  ghost predicate RefsMatch(b: Book) {
    && (forall r {:trigger Refs(b, r)} :: Refs(b, r) == Last(b, r) + Pointers(b, r))
    && (forall r :: r in b.history ==> b.history[r].refs >= 1)
  }

  /** A period is started at, or slashed at, at most once. */
  ghost predicate OnePointer(b: Book) {
    forall r :: Pointers(b, r) <= 1
  }

  /** Only known delegations have starting infos, and all pointers are at ended periods. */
  ghost predicate Shape(k: View, b: Book) {
    && (forall v :: v in k.order ==> Cur(b, v).period >= 1)
    && (forall d :: d in b.starting ==> d in k.dels && b.starting[d].period < Cur(b, d.val).period)
    && (forall v, e :: v in b.slashes && e in b.slashes[v] ==>
          e.period < Cur(b, v).period && 0 <= e.fraction <= PRECISION)
  }

  /** Cumulative ratios never decrease from one period to a later one. */
  ghost predicate Monotone(b: Book) {
    forall q, r :: q in b.history && r in b.history && q.val == r.val && q.period <= r.period ==>
      b.history[q].ratio <= b.history[r].ratio
  }

  ghost predicate Sound(k: View, b: Book) {
    RefsMatch(b) && OnePointer(b) && Shape(k, b) && Monotone(b)
  }

  /** What is outstanding covers the rewards of the running period. */
  ghost predicate Covered(k: View, m: Money, b: Book) {
    forall v :: v in k.order ==> 0 <= Cur(b, v).rewards <= At(m.outstanding, v)
  }

  ghost predicate Inv(k: View, s: Distr) {
    !s.panicked && Sound(k, s.book) && Covered(k, s.money, s.book)
  }

  // ----- how the sets of pointers move -----

  lemma StartsAfterAdd(b: Book, d: DelKey, info: StartingInfo, r: RecKey)
    requires d !in b.starting
    ensures Starts(Point(b, d, info), r) == Starts(b, r) + (if r == RecKey(d.val, info.period) then {d.del} else {})
    ensures r.val == d.val ==> d.del !in Starts(b, r)
  {
    var b' := Point(b, d, info);
    forall a | a in Starts(b', r)
      ensures a in Starts(b, r) + (if r == RecKey(d.val, info.period) then {d.del} else {})
    {
      assert DelKey(r.val, a) in b'.starting;
    }
    forall a | a in Starts(b, r)
      ensures a in Starts(b', r)
    {
      assert DelKey(r.val, a) in b'.starting;
    }
    if r == RecKey(d.val, info.period) {
      assert d in b'.starting && b'.starting[d] == info;
    }
  }

  lemma PointersAfterPoint(b: Book, d: DelKey, info: StartingInfo, r: RecKey)
    requires d !in b.starting
    ensures Pointers(Point(b, d, info), r) == Pointers(b, r) + (if r == RecKey(d.val, info.period) then 1 else 0)
  {
    StartsAfterAdd(b, d, info, r);
  }

  lemma PointersAfterUnpoint(b: Book, d: DelKey, r: RecKey)
    requires d in b.starting
    ensures Pointers(b, r) ==
            Pointers(Unpoint(b, d), r) + (if r == RecKey(d.val, b.starting[d].period) then 1 else 0)
  {
    var b' := Unpoint(b, d);
    StartsAfterAdd(b', d, b.starting[d], r);
    assert b'.starting[d := b.starting[d]] == b.starting;
    assert Starts(Point(b', d, b.starting[d]), r) == Starts(b, r);
  }

  lemma NothingBeyond(k: View, b: Book, r: RecKey)
    requires Shape(k, b)
    requires r.period >= Cur(b, r.val).period
    ensures Pointers(b, r) == 0
  {
    assert Starts(b, r) == {};
    assert SlashesAt(b, r) == {};
  }

  lemma RecordsAreEnded(k: View, b: Book, r: RecKey)
    requires Sound(k, b)
    requires r in b.history
    ensures r.period < Cur(b, r.val).period
  {
    if r.period >= Cur(b, r.val).period {
      assert Refs(b, r) >= 1;
      NothingBeyond(k, b, r);
    }
  }

  lemma LastIsRecorded(k: View, b: Book, v: Addr)
    requires Sound(k, b) && v in k.order
    ensures LastEnded(b, v) in b.history && Refs(b, LastEnded(b, v)) >= 1
  {
    assert Refs(b, LastEnded(b, v)) == Last(b, LastEnded(b, v)) + Pointers(b, LastEnded(b, v));
  }

  // ----- ending a period -----

  lemma EndPeriodRefsAt(b: Book, v: Addr, gain: int, r: RecKey, pointers: nat)
    requires Cur(b, v).period >= 1
    requires Refs(b, r) == Last(b, r) + pointers
    requires r == RecKey(v, Cur(b, v).period) ==> pointers == 0
    ensures Refs(EndPeriod(b, v, gain), r) == Last(EndPeriod(b, v, gain), r) + pointers
  {
  }

  lemma SamePointers(b: Book, c: Book, r: RecKey)
    requires c.starting == b.starting && c.slashes == b.slashes
    ensures Pointers(c, r) == Pointers(b, r)
  {
  }

  lemma EndPeriodKeepsRefs(k: View, b: Book, v: Addr, gain: int)
    requires Sound(k, b) && v in k.order
    ensures RefsMatch(EndPeriod(b, v, gain)) && OnePointer(EndPeriod(b, v, gain))
  {
    var c := EndPeriod(b, v, gain);
    NothingBeyond(k, b, RecKey(v, Cur(b, v).period));
    LastIsRecorded(k, b, v);
    forall r
      ensures Refs(c, r) == Last(c, r) + Pointers(c, r) && Pointers(c, r) <= 1
    {
      SamePointers(b, c, r);
      assert Refs(b, r) == Last(b, r) + Pointers(b, r);
      EndPeriodRefsAt(b, v, gain, r, Pointers(b, r));
    }
  }

  lemma EndPeriodKeepsMonotone(k: View, b: Book, v: Addr, gain: int)
    requires Sound(k, b) && v in k.order && gain >= 0
    ensures Monotone(EndPeriod(b, v, gain))
  {
    var c, p := EndPeriod(b, v, gain), Cur(b, v).period;
    LastIsRecorded(k, b, v);
    forall q, r | q in c.history && r in c.history && q.val == r.val && q.period <= r.period
      ensures c.history[q].ratio <= c.history[r].ratio
    {
      if q != RecKey(v, p) { RecordsAreEnded(k, b, q); }
      if r != RecKey(v, p) { RecordsAreEnded(k, b, r); }
    }
  }

  lemma EndPeriodKeeps(k: View, b: Book, v: Addr, gain: int)
    requires Sound(k, b) && v in k.order && gain >= 0
    ensures Sound(k, EndPeriod(b, v, gain))
    ensures Pointers(EndPeriod(b, v, gain), RecKey(v, Cur(b, v).period)) == 0
  {
    hide RefsMatch, OnePointer, Monotone, Pointers;
    EndPeriodKeepsRefs(k, b, v, gain);
    EndPeriodKeepsMonotone(k, b, v, gain);
    NothingBeyond(k, b, RecKey(v, Cur(b, v).period));
    SamePointers(b, EndPeriod(b, v, gain), RecKey(v, Cur(b, v).period));
  }

  lemma PerTokenNonNegative(rewards: int, tokens: nat)
    requires rewards >= 0
    ensures PerToken(rewards, tokens) >= 0
  {
  }

  /** Ending a period does not panic, and changes the book by EndPeriod. */
  lemma IncrementIs(k: View, s: Distr, v: Addr)
    requires Inv(k, s) && v in k.order
    ensures var t, cur := IncrementPeriod(k, s, v), Cur(s.book, v);
      && !t.panicked
      && t.book == EndPeriod(s.book, v, PerToken(cur.rewards, Tokens(k, v)))
      && t.money == if Tokens(k, v) == 0 then PoolRewards(s.money, v, cur.rewards) else s.money
  {
    LastIsRecorded(k, s.book, v);
  }

  lemma IncrementKeeps(k: View, s: Distr, v: Addr)
    requires Inv(k, s) && v in k.order
    ensures Inv(k, IncrementPeriod(k, s, v))
    ensures Pointers(IncrementPeriod(k, s, v).book, RecKey(v, Cur(s.book, v).period)) == 0
  {
    hide RefsMatch, OnePointer, Monotone, Pointers, IncrementPeriod;
    IncrementIs(k, s, v);
    PerTokenNonNegative(Cur(s.book, v).rewards, Tokens(k, v));
    EndPeriodKeeps(k, s.book, v, PerToken(Cur(s.book, v).rewards, Tokens(k, v)));
  }

  // ----- stopping and starting a delegation -----

  lemma UnpointKeepsRefs(b: Book, d: DelKey)
    requires RefsMatch(b) && OnePointer(b) && d in b.starting
    ensures RefsMatch(Unpoint(b, d)) && OnePointer(Unpoint(b, d))
    ensures Refs(b, RecKey(d.val, b.starting[d].period)) >= 1
    ensures forall r :: Pointers(Unpoint(b, d), r) <= Pointers(b, r)
  {
    var c := Unpoint(b, d);
    forall r
      ensures Pointers(c, r) <= Pointers(b, r) <= 1
      ensures Refs(c, r) == Last(c, r) + Pointers(c, r)
    {
      PointersAfterUnpoint(b, d, r);
      assert Refs(b, r) == Last(b, r) + Pointers(b, r);
    }
    PointersAfterUnpoint(b, d, RecKey(d.val, b.starting[d].period));
    assert Refs(b, RecKey(d.val, b.starting[d].period)) >= 1;
  }

  lemma UnpointKeeps(k: View, b: Book, d: DelKey)
    requires Sound(k, b) && d in b.starting
    ensures Sound(k, Unpoint(b, d))
    ensures Refs(b, RecKey(d.val, b.starting[d].period)) >= 1
    ensures forall r :: Pointers(Unpoint(b, d), r) <= Pointers(b, r)
  {
    hide RefsMatch, OnePointer, Pointers;
    UnpointKeepsRefs(b, d);
    assert Shape(k, Unpoint(b, d));
    assert Monotone(Unpoint(b, d));
  }

  lemma PointKeepsRefs(b: Book, d: DelKey, info: StartingInfo)
    requires RefsMatch(b) && OnePointer(b) && d !in b.starting
    requires info.period == Cur(b, d.val).period - 1
    requires Pointers(b, RecKey(d.val, info.period)) == 0
    ensures RefsMatch(Point(b, d, info)) && OnePointer(Point(b, d, info))
    ensures Refs(b, RecKey(d.val, info.period)) == 1
  {
    var c := Point(b, d, info);
    forall r
      ensures Pointers(c, r) <= 1
      ensures Refs(c, r) == Last(c, r) + Pointers(c, r)
    {
      PointersAfterPoint(b, d, info, r);
      assert Refs(b, r) == Last(b, r) + Pointers(b, r);
    }
  }

  lemma PointKeeps(k: View, b: Book, d: DelKey, info: StartingInfo)
    requires Sound(k, b) && d !in b.starting && d in k.dels && d.val in k.order
    requires info.period == Cur(b, d.val).period - 1
    requires Pointers(b, LastEnded(b, d.val)) == 0
    ensures Sound(k, Point(b, d, info))
    ensures Refs(b, LastEnded(b, d.val)) == 1
  {
    hide RefsMatch, OnePointer, Pointers;
    PointKeepsRefs(b, d, info);
    assert Shape(k, Point(b, d, info));
    assert Monotone(Point(b, d, info));
  }

  // ----- accrued rewards -----

  lemma ProductNonNegative(a: int, b: int)
    requires a >= 0 && b >= 0
    ensures a * b >= 0 && a * b / PRECISION >= 0
  {
  }

  lemma PointedIsRecorded(b: Book, r: RecKey)
    requires RefsMatch(b)
    requires Starts(b, r) != {} || SlashesAt(b, r) != {}
    ensures r in b.history
  {
    assert Refs(b, r) == Last(b, r) + Pointers(b, r);
  }

  /** The stake that is left after the slash events, as the keeper compares it with the worth. */
  function FinalStake(events: seq<SlashEvent>, lo: nat, hi: nat, from: nat, stake: int): int {
    if events == [] then stake
    else if lo <= events[0].height <= hi && events[0].period > from
    then FinalStake(events[1..], lo, hi, events[0].period, Slashed(stake, events[0]))
    else FinalStake(events[1..], lo, hi, from, stake)
  }

  /** No delegation's slashed stake exceeds its worth by more than rounding. */
  ghost predicate Fits(k: View, b: Book, height: nat) {
    forall d :: d in b.starting ==> StakeFits(k, b, d, height)
  }

  ghost predicate StakeFits(k: View, b: Book, d: DelKey, height: nat)
    requires d in b.starting
  {
    var info := b.starting[d];
    info.height == height ||
    FinalStake(EventsFor(b, d, height), info.height, height, info.period, info.stake) <= WorthOf(k, d) + MARGIN
  }

  /** Accrued rewards are defined and not negative: none of the keeper's sanity checks fires. */
  lemma {:induction false} AccruedDefined(b: Book, v: Addr, events: seq<SlashEvent>,
                                          lo: nat, hi: nat, from: nat, to: nat, stake: int, worth: nat)
    requires Monotone(b) && from <= to && stake >= 0
    requires forall e :: e in events ==>
      RecKey(v, e.period) in b.history && e.period <= to && 0 <= e.fraction <= PRECISION
    requires RecKey(v, from) in b.history && RecKey(v, to) in b.history
    requires FinalStake(events, lo, hi, from, stake) <= worth + MARGIN
    ensures Accrued(b, v, events, lo, hi, from, to, stake, worth).Some?
    ensures Accrued(b, v, events, lo, hi, from, to, stake, worth).value >= 0
    decreases events
  {
    if events == [] {
      ProductNonNegative(Ratio(b, RecKey(v, to)) - Ratio(b, RecKey(v, from)), Min(stake, worth));
    } else {
      var e := events[0];
      if lo <= e.height <= hi && e.period > from {
        ProductNonNegative(Ratio(b, RecKey(v, e.period)) - Ratio(b, RecKey(v, from)), stake);
        ProductNonNegative(stake, PRECISION - e.fraction);
        AccruedDefined(b, v, events[1..], lo, hi, e.period, to, Slashed(stake, e), worth);
      } else {
        AccruedDefined(b, v, events[1..], lo, hi, from, to, stake, worth);
      }
    }
  }

  lemma SlashedIsRecorded(k: View, b: Book, v: Addr, e: SlashEvent)
    requires Sound(k, b) && v in b.slashes && e in b.slashes[v]
    ensures RecKey(v, e.period) in b.history
  {
    var i :| 0 <= i < |b.slashes[v]| && b.slashes[v][i] == e;
    assert i in SlashesAt(b, RecKey(v, e.period));
    PointedIsRecorded(b, RecKey(v, e.period));
  }

  lemma RewardsDefined(k: View, b: Book, d: DelKey, height: nat)
    requires WellFormed(k) && Sound(k, b) && d in b.starting && Fits(k, b, height)
    ensures RewardsOf(k, b, d, height).Some? && RewardsOf(k, b, d, height).value >= 0
  {
    hide FinalStake, Accrued;
    var v, from, to := d.val, b.starting[d].period, Cur(b, d.val).period - 1;
    assert d.del in Starts(b, RecKey(v, from));
    PointedIsRecorded(b, RecKey(v, from));
    LastIsRecorded(k, b, v);
    var events := EventsFor(b, d, height);
    forall e | e in events
      ensures RecKey(v, e.period) in b.history && e.period <= to && 0 <= e.fraction <= PRECISION
    {
      SlashedIsRecorded(k, b, v, e);
    }
    assert StakeFits(k, b, d, height);
    if b.starting[d].height != height {
      AccruedDefined(b, v, events, b.starting[d].height, height, from, to, b.starting[d].stake, WorthOf(k, d));
    }
  }

  lemma FitsSame(k: View, b: Book, c: Book, height: nat)
    requires Fits(k, b, height) && c.starting == b.starting && c.slashes == b.slashes
    ensures Fits(k, c, height)
  {
    forall d | d in c.starting ensures StakeFits(k, c, d, height) {
      assert StakeFits(k, b, d, height) && EventsFor(c, d, height) == EventsFor(b, d, height);
    }
  }

  /** A delegation started at this height needs no comparison. */
  lemma FitsRestarted(k: View, b: Book, c: Book, d: DelKey, info: StartingInfo, height: nat)
    requires Fits(k, b, height) && c.starting == b.starting[d := info] && c.slashes == b.slashes
    requires info.height == height
    ensures Fits(k, c, height)
  {
    forall e | e in c.starting ensures StakeFits(k, c, e, height) {
      if e != d {
        assert StakeFits(k, b, e, height) && EventsFor(c, e, height) == EventsFor(b, e, height);
      }
    }
  }

  // ----- reward withdrawals -----

  /** Releasing a delegation and starting it afresh, on the book. */
  function Restart(k: View, b: Book, d: DelKey, height: nat): Book
    requires d in b.starting && Cur(b, d.val).period >= 1
  {
    Point(Unpoint(b, d), d, StartingInfo(Cur(b, d.val).period - 1, StakeOf(k, d), height))
  }

  lemma RestartKeeps(k: View, b: Book, d: DelKey, height: nat)
    requires Sound(k, b) && d in k.dels && d.val in k.order && d in b.starting
    requires Pointers(b, LastEnded(b, d.val)) == 0
    ensures Sound(k, Restart(k, b, d, height))
    ensures Refs(b, RecKey(d.val, b.starting[d].period)) >= 1
    ensures Refs(Unpoint(b, d), LastEnded(b, d.val)) == 1
  {
    hide RefsMatch, OnePointer, Monotone, Pointers;
    UnpointKeeps(k, b, d);
    PointKeeps(k, Unpoint(b, d), d, StartingInfo(Cur(b, d.val).period - 1, StakeOf(k, d), height));
  }

  lemma SettleIs(k: View, t: Distr, d: DelKey, amount: int, height: nat)
    requires !t.panicked && d in t.book.starting && Cur(t.book, d.val).period >= 1
    requires Refs(t.book, RecKey(d.val, t.book.starting[d].period)) >= 1
    requires Refs(Unpoint(t.book, d), LastEnded(t.book, d.val)) == 1
    ensures Settle(k, t, d, amount, height) ==
            Distr(PayRewards(t.money, d, amount), Restart(k, t.book, d, height), false)
  {
  }

  lemma PayRewardsCovers(k: View, m: Money, b: Book, d: DelKey, amount: int)
    requires Covered(k, m, b) && Cur(b, d.val).rewards == 0 && amount <= At(m.outstanding, d.val)
    ensures Covered(k, PayRewards(m, d, amount), b)
  {
  }

  /** Settling a delegation whose period has just ended panics nowhere and keeps the invariant. */
  lemma SettleKeeps(k: View, t: Distr, d: DelKey, amount: int, height: nat)
    requires Inv(k, t) && d in k.dels && d.val in k.order && d in t.book.starting
    requires Cur(t.book, d.val).rewards == 0 && amount <= At(t.money.outstanding, d.val)
    requires Pointers(t.book, LastEnded(t.book, d.val)) == 0
    ensures Inv(k, Settle(k, t, d, amount, height))
    ensures Settle(k, t, d, amount, height) ==
            Distr(PayRewards(t.money, d, amount), Restart(k, t.book, d, height), false)
  {
    hide RefsMatch, OnePointer, Monotone, Pointers, Shape;
    RestartKeeps(k, t.book, d, height);
    SettleIs(k, t, d, amount, height);
    PayRewardsCovers(k, t.money, t.book, d, amount);
  }

  /** Whether the withdrawal gets as far as looking at rewards. */
  predicate Withdrawable(k: View, s: Distr, d: DelKey) { d in k.dels && d.val in k.order && d in s.book.starting }

  /** The reward once the period is ended, cut to what is outstanding; defined whenever the invariant holds. */
  function Due(k: View, s: Distr, d: DelKey, height: nat): int {
    var t := IncrementPeriod(k, s, d.val);
    match RewardsOf(k, t.book, d, height) case Some(raw) => Payout(t, d, raw) case None => 0
  }

  /** A withdrawal ends the period and, if the module account can pay, settles the delegation. */
  lemma WithdrawRewardsIs(k: View, s: Distr, d: DelKey, height: nat)
    requires WellFormed(k) && Inv(k, s) && Fits(k, s.book, height) && Withdrawable(k, s, d)
    ensures var t := IncrementPeriod(k, s, d.val);
      && Inv(k, t) && d in t.book.starting && Cur(t.book, d.val).rewards == 0
      && Pointers(t.book, LastEnded(t.book, d.val)) == 0
      && 0 <= Due(k, s, d, height) <= At(t.money.outstanding, d.val)
      && WithdrawRewards(k, s, d, height) ==
         if t.money.bal < Due(k, s, d, height) / PRECISION then t else Settle(k, t, d, Due(k, s, d, height), height)
  {
    hide RefsMatch, OnePointer, Monotone, Pointers, IncrementPeriod, Settle, RewardsOf, Fits;
    IncrementIs(k, s, d.val);
    IncrementKeeps(k, s, d.val);
    FitsSame(k, s.book, IncrementPeriod(k, s, d.val).book, height);
    RewardsDefined(k, IncrementPeriod(k, s, d.val).book, d, height);
  }

  /** A reward withdrawal keeps the invariant, hence reaches none of the keeper's panics. */
  lemma WithdrawRewardsKeeps(k: View, s: Distr, d: DelKey, height: nat)
    requires WellFormed(k) && Inv(k, s) && Fits(k, s.book, height)
    ensures Inv(k, WithdrawRewards(k, s, d, height)) && Fits(k, WithdrawRewards(k, s, d, height).book, height)
  {
    hide RefsMatch, OnePointer, Monotone, Pointers, IncrementPeriod, Settle, Due, Fits;
    if Withdrawable(k, s, d) {
      var t := IncrementPeriod(k, s, d.val);
      WithdrawRewardsIs(k, s, d, height);
      IncrementIs(k, s, d.val);
      IncrementKeeps(k, s, d.val);
      FitsSame(k, s.book, t.book, height);
      SettleKeeps(k, t, d, Due(k, s, d, height), height);
      RestartFits(k, t.book, d, height);
    }
  }

  lemma RestartFits(k: View, b: Book, d: DelKey, height: nat)
    requires Fits(k, b, height) && d in b.starting && Cur(b, d.val).period >= 1
    ensures Fits(k, Restart(k, b, d, height), height)
  {
    var info := StartingInfo(Cur(b, d.val).period - 1, StakeOf(k, d), height);
    assert (b.starting - {d})[d := info] == b.starting[d := info];
    FitsRestarted(k, b, Restart(k, b, d, height), d, info, height);
  }
}
