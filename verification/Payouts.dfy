/**
 How much every delegation receives. What a delegation has accrued does not depend on the
 withdrawals of others; what it is paid is that amount, cut to what its validator has left.
*/
module Payouts {
  import opened Base
  import opened Sums
  import opened Distribution
  import opened Invariants
  import opened ZeroHeight
  import opened Rebuilding
  import opened ExportTheorems
  import opened Solvency

  /** What a delegation has accrued once its validator's period is ended, before any cut. */
  function Entitled(k: View, s: Distr, d: DelKey, height: nat): int {
    match RewardsOf(k, IncrementPeriod(k, s, d.val).book, d, height) case Some(raw) => raw case None => 0
  }

  /** What is outstanding for a validator once its period is ended. */
  function Left(k: View, s: Distr, v: Addr): int { At(IncrementPeriod(k, s, v).money.outstanding, v) }

  function Max(a: int, b: int): int { if a <= b then b else a }

  /** States in which withdrawals go through. */
  ghost predicate Open(k: View, s: Distr, height: nat) {
    WellFormed(k) && Inv(k, s) && Fits(k, s.book, height) && Known(k, s) && Solvent(s.money)
  }

  lemma EntitledNotNegative(k: View, s: Distr, d: DelKey, height: nat)
    requires Open(k, s, height) && Withdrawable(k, s, d)
    ensures Entitled(k, s, d, height) >= 0
    ensures Due(k, s, d, height) == Min(Entitled(k, s, d, height), Left(k, s, d.val))
  {
    hide Sound, Known, Solvent, Fits, IncrementPeriod, RewardsOf;
    IncrementIs(k, s, d.val);
    IncrementKeeps(k, s, d.val);
    FitsSame(k, s.book, IncrementPeriod(k, s, d.val).book, height);
    RewardsDefined(k, IncrementPeriod(k, s, d.val).book, d, height);
  }

  // ----- accrued rewards are what the ratios say -----

  /** Two books that agree on the ratios at the start, at the slashes and at the end accrue the same. */
  lemma {:induction false} AccruedSame(b: Book, c: Book, v: Addr, events: seq<SlashEvent>, lo: nat, hi: nat,
                                       from: nat, to: nat, to': nat, stake: int, worth: nat)
    requires Ratio(b, RecKey(v, from)) == Ratio(c, RecKey(v, from))
    requires Ratio(b, RecKey(v, to)) == Ratio(c, RecKey(v, to'))
    requires from <= to && from <= to'
    requires forall e :: e in events ==>
      e.period <= to && e.period <= to' && Ratio(b, RecKey(v, e.period)) == Ratio(c, RecKey(v, e.period))
    ensures Accrued(b, v, events, lo, hi, from, to, stake, worth) ==
            Accrued(c, v, events, lo, hi, from, to', stake, worth)
    decreases events
  {
    if events != [] {
      var e := events[0];
      if lo <= e.height <= hi && e.period > from {
        AccruedSame(b, c, v, events[1..], lo, hi, e.period, to, to', Slashed(stake, e), worth);
      } else {
        AccruedSame(b, c, v, events[1..], lo, hi, from, to, to', stake, worth);
      }
    }
  }

  /** Every record of c but one is a record of b with the same ratio. */
  ghost predicate RatiosFrom(b: Book, c: Book, but: RecKey) {
    forall r :: r in c.history && r != but ==> r in b.history && c.history[r].ratio == b.history[r].ratio
  }

  lemma EndPeriodRatios(b: Book, v: Addr, gain: int)
    requires Cur(b, v).period >= 1
    ensures RatiosFrom(b, EndPeriod(b, v, gain), RecKey(v, Cur(b, v).period))
    ensures Ratio(EndPeriod(b, v, gain), RecKey(v, Cur(b, v).period)) == Ratio(b, LastEnded(b, v)) + gain
  {
  }

  lemma RestartRatios(k: View, b: Book, d: DelKey, height: nat)
    requires d in b.starting && Cur(b, d.val).period >= 1
    requires Refs(Unpoint(b, d), LastEnded(b, d.val)) == 1
    ensures forall r :: r in Restart(k, b, d, height).history ==>
      r in b.history && Restart(k, b, d, height).history[r].ratio == b.history[r].ratio
  {
  }

  /** The book after a withdrawal that is paid. */
  lemma WithdrawnBook(k: View, s: Distr, d: DelKey, height: nat)
    requires Open(k, s, height) && Withdrawable(k, s, d)
    ensures var t, w := IncrementPeriod(k, s, d.val), WithdrawRewards(k, s, d, height);
      && Cur(t.book, d.val).period >= 1 && d in t.book.starting
      && w.book == Restart(k, t.book, d, height)
      && Refs(Unpoint(t.book, d), LastEnded(t.book, d.val)) == 1
      && w.money == PayRewards(t.money, d, Due(k, s, d, height))
  {
    hide Sound, Known, Solvent, Fits, Pointers, IncrementPeriod, Settle, Due, WithdrawRewards, PayRewards, Restart;
    var t := IncrementPeriod(k, s, d.val);
    IncrementIs(k, s, d.val);
    IncrementSolvent(k, s, d.val);
    WithdrawRewardsIs(k, s, d, height);
    SolventPays(t.money, d.val, Due(k, s, d, height));
    SettleKeeps(k, t, d, Due(k, s, d, height), height);
    RestartKeeps(k, t.book, d, height);
  }

  lemma OpenKept(k: View, s: Distr, d: DelKey, height: nat)
    requires Open(k, s, height)
    ensures Open(k, WithdrawRewards(k, s, d, height), height)
  {
    hide Inv, Known, Solvent, Fits, WithdrawRewards;
    WithdrawRewardsKeeps(k, s, d, height);
    WithdrawRewardsKnown(k, s, d, height);
    RewardsSolvent(k, s, d, height);
  }

  // ----- what others withdraw does not change what a delegation has accrued -----

  /** Book c is book b after d was paid: d's validator has ended a period, d has started afresh. */
  ghost predicate After(k: View, b: Book, c: Book, d: DelKey) {
    var p := Cur(b, d.val).period;
    && p >= 1
    && c.slashes == b.slashes
    && (forall e :: e != d && e in b.starting ==> e in c.starting && c.starting[e] == b.starting[e])
    && c.current == b.current[d.val := Current(0, p + 1)]
    && (forall r :: r in c.history && r != RecKey(d.val, p) ==>
          r in b.history && c.history[r].ratio == b.history[r].ratio)
    && Ratio(c, RecKey(d.val, p)) == Ratio(b, LastEnded(b, d.val)) + PerToken(Cur(b, d.val).rewards, Tokens(k, d.val))
  }

  lemma PaidIsAfter(k: View, b: Book, d: DelKey, gain: int, height: nat)
    requires Cur(b, d.val).period >= 1 && d in b.starting
    requires gain == PerToken(Cur(b, d.val).rewards, Tokens(k, d.val))
    requires Refs(Unpoint(EndPeriod(b, d.val, gain), d), LastEnded(EndPeriod(b, d.val, gain), d.val)) == 1
    ensures After(k, b, Restart(k, EndPeriod(b, d.val, gain), d, height), d)
  {
    hide PerToken, Restart, Unpoint, EndPeriod;
    EndPeriodRatios(b, d.val, gain);
    EndPeriodFrame(b, d.val, gain);
    RestartRatios(k, EndPeriod(b, d.val, gain), d, height);
    RestartFrame(k, EndPeriod(b, d.val, gain), d, height);
  }

  lemma EndPeriodFrame(b: Book, v: Addr, gain: int)
    requires Cur(b, v).period >= 1
    ensures var c := EndPeriod(b, v, gain);
      c.starting == b.starting && c.slashes == b.slashes &&
      c.current == b.current[v := Current(0, Cur(b, v).period + 1)]
  {
  }

  lemma RestartFrame(k: View, b: Book, d: DelKey, height: nat)
    requires d in b.starting && Cur(b, d.val).period >= 1
    ensures var c := Restart(k, b, d, height);
      && c.slashes == b.slashes && c.current == b.current
      && LastEnded(b, d.val) in c.history
      && forall e :: e != d && e in b.starting ==> e in c.starting && c.starting[e] == b.starting[e]
  {
  }

  lemma WithdrawnAfter(k: View, s: Distr, d: DelKey, height: nat)
    requires Open(k, s, height) && Withdrawable(k, s, d)
    ensures After(k, s.book, WithdrawRewards(k, s, d, height).book, d)
  {
    hide Sound, Known, Solvent, Fits, Due, WithdrawRewards, IncrementPeriod, PerToken, After, Restart, Unpoint;
    IncrementIs(k, s, d.val);
    LastIsRecorded(k, s.book, d.val);
    WithdrawnBook(k, s, d, height);
    PaidIsAfter(k, s.book, d, PerToken(Cur(s.book, d.val).rewards, Tokens(k, d.val)), height);
  }

  /** Ending v's period in both books: the older records have the same ratios. */
  lemma OldRatioKept(k: View, b: Book, c: Book, d: DelKey, v: Addr, gain: int, gain': int, r: RecKey)
    requires After(k, b, c, d) && Cur(b, v).period >= 1 && r.val == v && r.period < Cur(b, v).period
    requires r in EndPeriod(b, v, gain).history && r in EndPeriod(c, v, gain').history
    ensures Ratio(EndPeriod(b, v, gain), r) == Ratio(EndPeriod(c, v, gain'), r)
  {
    hide PerToken;
    EndPeriodRatios(b, v, gain);
    EndPeriodRatios(c, v, gain');
  }

  /** And so do the last records. */
  lemma LastRatioKept(k: View, b: Book, c: Book, d: DelKey, v: Addr)
    requires After(k, b, c, d) && Cur(b, v).period >= 1 && LastEnded(c, v) in c.history
    ensures var b', c' := EndPeriod(b, v, PerToken(Cur(b, v).rewards, Tokens(k, v))),
                          EndPeriod(c, v, PerToken(Cur(c, v).rewards, Tokens(k, v)));
      Ratio(b', RecKey(v, Cur(b, v).period)) == Ratio(c', RecKey(v, Cur(c, v).period))
  {
    hide PerToken;
    EndPeriodRatios(b, v, PerToken(Cur(b, v).rewards, Tokens(k, v)));
    EndPeriodRatios(c, v, PerToken(Cur(c, v).rewards, Tokens(k, v)));
    NothingPerToken(Tokens(k, v));
  }

  lemma NothingPerToken(tokens: nat)
    ensures PerToken(0, tokens) == 0
  {
  }

  /** All records that count for e in a sound book whose period for e's validator has ended. */
  lemma RecordsOf(k: View, b: Book, e: DelKey)
    requires WellFormed(k) && Sound(k, b) && e in b.starting
    ensures RecKey(e.val, b.starting[e].period) in b.history && e.val in k.order
    ensures e.val in b.slashes ==> forall x :: x in b.slashes[e.val] ==> RecKey(e.val, x.period) in b.history
  {
    assert e.del in Starts(b, RecKey(e.val, b.starting[e].period));
    PointedIsRecorded(b, RecKey(e.val, b.starting[e].period));
    if e.val in b.slashes {
      forall x | x in b.slashes[e.val] ensures RecKey(e.val, x.period) in b.history {
        SlashedIsRecorded(k, b, e.val, x);
      }
    }
  }

  /** Two books whose last ended periods of v have the same ratio, as do the older ones in both. */
  ghost predicate Agree(b: Book, c: Book, v: Addr) {
    && 2 <= Cur(b, v).period <= Cur(c, v).period
    && Ratio(b, LastEnded(b, v)) == Ratio(c, LastEnded(c, v))
    && forall r :: r in b.history && r in c.history && r.val == v && r.period < Cur(b, v).period - 1 ==>
         Ratio(b, r) == Ratio(c, r)
  }

  /** Everything that points at a period of v points before period p. */
  ghost predicate PointsBefore(b: Book, v: Addr, p: int) {
    && (forall d :: d in b.starting && d.val == v ==> b.starting[d].period < p)
    && (v in b.slashes ==> forall x :: x in b.slashes[v] ==> x.period < p)
  }

  lemma RewardsAgree(k: View, b: Book, c: Book, e: DelKey, height: nat)
    requires WellFormed(k) && Sound(k, b) && Sound(k, c) && Agree(b, c, e.val)
    requires PointsBefore(b, e.val, Cur(b, e.val).period - 1)
    requires e in b.starting && e in c.starting && b.starting[e] == c.starting[e] && b.slashes == c.slashes
    ensures RewardsOf(k, b, e, height) == RewardsOf(k, c, e, height)
  {
    hide Sound, Accrued;
    RecordsOf(k, b, e);
    RecordsOf(k, c, e);
    AccruedSame(b, c, e.val, EventsFor(b, e, height), b.starting[e].height, height, b.starting[e].period,
                Cur(b, e.val).period - 1, Cur(c, e.val).period - 1, b.starting[e].stake, WorthOf(k, e));
  }

  lemma EndedAgree(k: View, b: Book, c: Book, d: DelKey, v: Addr)
    requires After(k, b, c, d) && Cur(b, v).period >= 1 && LastEnded(c, v) in c.history
    ensures Agree(EndPeriod(b, v, PerToken(Cur(b, v).rewards, Tokens(k, v))),
                  EndPeriod(c, v, PerToken(Cur(c, v).rewards, Tokens(k, v))), v)
  {
    hide PerToken;
    var gain, gain' := PerToken(Cur(b, v).rewards, Tokens(k, v)), PerToken(Cur(c, v).rewards, Tokens(k, v));
    var b', c' := EndPeriod(b, v, gain), EndPeriod(c, v, gain');
    LastRatioKept(k, b, c, d, v);
    forall r | r in b'.history && r in c'.history && r.val == v && r.period < Cur(b, v).period
      ensures Ratio(b', r) == Ratio(c', r)
    {
      OldRatioKept(k, b, c, d, v, gain, gain', r);
    }
  }

  lemma SoundPointsBefore(k: View, b: Book, v: Addr, gain: int)
    requires Sound(k, b) && Cur(b, v).period >= 1
    ensures PointsBefore(EndPeriod(b, v, gain), v, Cur(b, v).period)
  {
  }

  lemma RewardsSame(k: View, b: Book, c: Book, d: DelKey, e: DelKey, height: nat)
    requires WellFormed(k) && Sound(k, b) && Sound(k, c) && After(k, b, c, d)
    requires e != d && e in b.starting && e.val in k.order
    requires Cur(b, e.val).rewards >= 0 && Cur(c, e.val).rewards >= 0
    ensures Cur(b, e.val).period >= 1 && Cur(c, e.val).period >= 1
    ensures RewardsOf(k, EndPeriod(b, e.val, PerToken(Cur(b, e.val).rewards, Tokens(k, e.val))), e, height) ==
            RewardsOf(k, EndPeriod(c, e.val, PerToken(Cur(c, e.val).rewards, Tokens(k, e.val))), e, height)
  {
    hide PerToken, Sound, RewardsOf, Agree, PointsBefore;
    var v := e.val;
    LastIsRecorded(k, b, v);
    LastIsRecorded(k, c, v);
    PerTokenNonNegative(Cur(b, v).rewards, Tokens(k, v));
    PerTokenNonNegative(Cur(c, v).rewards, Tokens(k, v));
    EndPeriodKeeps(k, b, v, PerToken(Cur(b, v).rewards, Tokens(k, v)));
    EndPeriodKeeps(k, c, v, PerToken(Cur(c, v).rewards, Tokens(k, v)));
    EndedAgree(k, b, c, d, v);
    SoundPointsBefore(k, b, v, PerToken(Cur(b, v).rewards, Tokens(k, v)));
    RewardsAgree(k, EndPeriod(b, v, PerToken(Cur(b, v).rewards, Tokens(k, v))),
                 EndPeriod(c, v, PerToken(Cur(c, v).rewards, Tokens(k, v))), e, height);
  }

  /** Another delegation's withdrawal changes nothing of what a delegation has accrued. */
  lemma EntitledKept(k: View, s: Distr, d: DelKey, e: DelKey, height: nat)
    requires Open(k, s, height) && Withdrawable(k, s, e) && e != d
    ensures var w := WithdrawRewards(k, s, d, height);
      Withdrawable(k, w, e) && Entitled(k, w, e, height) == Entitled(k, s, e, height)
  {
    hide Sound, Known, Solvent, Fits, Due, WithdrawRewards, IncrementPeriod, PerToken, RewardsOf;
    if Withdrawable(k, s, d) {
      var w := WithdrawRewards(k, s, d, height);
      WithdrawnAfter(k, s, d, height);
      OpenKept(k, s, d, height);
      IncrementIs(k, s, e.val);
      IncrementKeeps(k, s, e.val);
      IncrementIs(k, w, e.val);
      IncrementKeeps(k, w, e.val);
      RewardsSame(k, s.book, w.book, d, e, height);
    } else {
      OutsiderUnpaid(k, s, d, height);
    }
  }

  // ----- what is left for a validator -----

  lemma LeftIs(k: View, s: Distr, v: Addr)
    requires Inv(k, s) && v in k.order
    ensures Left(k, s, v) == At(s.money.outstanding, v) - if Tokens(k, v) == 0 then Cur(s.book, v).rewards else 0
    ensures Left(k, s, v) >= 0
  {
    hide Sound, IncrementPeriod;
    IncrementIs(k, s, v);
  }

  /** A withdrawal takes its payout from its own validator and nothing from others. */
  lemma LeftAfter(k: View, s: Distr, d: DelKey, height: nat, v: Addr)
    requires Open(k, s, height) && Withdrawable(k, s, d) && v in k.order
    ensures Left(k, WithdrawRewards(k, s, d, height), v) ==
            Left(k, s, v) - if v == d.val then Due(k, s, d, height) else 0
  {
    hide Sound, Known, Solvent, Fits, Due, WithdrawRewards, IncrementPeriod, Restart, Left, PayRewards;
    var w := WithdrawRewards(k, s, d, height);
    OpenKept(k, s, d, height);
    IncrementIs(k, s, d.val);
    WithdrawnAfter(k, s, d, height);
    WithdrawnBook(k, s, d, height);
    LeftIs(k, s, v);
    LeftIs(k, w, v);
    DueNotNegative(k, s, d, height);
    PayRewardsSpends(IncrementPeriod(k, s, d.val).money, d, Due(k, s, d, height));
  }

  lemma DueNotNegative(k: View, s: Distr, d: DelKey, height: nat)
    requires Open(k, s, height) && Withdrawable(k, s, d)
    ensures Due(k, s, d, height) >= 0
  {
    hide Sound, Known, Solvent, Fits, Due, IncrementPeriod, Settle, WithdrawRewards;
    WithdrawRewardsIs(k, s, d, height);
  }

  // ----- the run -----

  /** Whether the loop pays d at its turn. */
  predicate Served(k: View, t: Distr, failed: set<DelKey>, d: DelKey) { d !in failed && Withdrawable(k, t, d) }

  /** What v's delegations in the list have accrued together, failing calls aside. */
  function EntitledSum(k: View, t: Distr, dels: seq<DelKey>, height: nat, failed: set<DelKey>, v: Addr): int {
    if dels == [] then 0
    else
      var d := dels[|dels| - 1];
      EntitledSum(k, t, dels[..|dels| - 1], height, failed, v) +
      if Served(k, t, failed, d) && d.val == v then Entitled(k, t, d, height) else 0
  }

  /** Through the loop, a delegation whose turn has not come keeps what it has accrued. */
  lemma {:induction false} EntitledThrough(k: View, t: Distr, dels: seq<DelKey>, height: nat, failed: set<DelKey>,
                                           e: DelKey)
    requires Open(k, t, height) && Withdrawable(k, t, e) && e !in dels
    ensures var s := WithdrawAllRewards(k, t, dels, height, failed);
      Open(k, s, height) && Withdrawable(k, s, e) && Entitled(k, s, e, height) == Entitled(k, t, e, height)
  {
    hide Open, WithdrawRewards, Withdrawable, Entitled;
    if dels != [] {
      var init, d := dels[..|dels| - 1], dels[|dels| - 1];
      EntitledThrough(k, t, init, height, failed, e);
      var s := WithdrawAllRewards(k, t, init, height, failed);
      EntitledKept(k, s, d, e, height);
      OpenKept(k, s, d, height);
    }
  }

  lemma {:induction false} OpenThrough(k: View, t: Distr, dels: seq<DelKey>, height: nat, failed: set<DelKey>)
    requires Open(k, t, height)
    ensures var s := WithdrawAllRewards(k, t, dels, height, failed);
      Open(k, s, height) && s.book.starting.Keys == t.book.starting.Keys
  {
    hide WithdrawAllRewards, Inv, Known, Fits, Solvent;
    RewardsKeep(k, t, dels, height, failed);
    AllRewardsSolvent(k, t, dels, height, failed);
    StartsKept(k, t, dels, height, failed);
  }

  /** What a delegation receives at its turn. */
  function Received(k: View, t: Distr, dels: seq<DelKey>, height: nat, failed: set<DelKey>, i: nat): int
    requires i < |dels|
  {
    Due(k, WithdrawAllRewards(k, t, dels[..i], height, failed), dels[i], height)
  }

  /** What v has left after any part of the loop: all claims are served in turn while something is left. */
  lemma {:induction false} LeftClosed(k: View, t: Distr, dels: seq<DelKey>, height: nat, failed: set<DelKey>, v: Addr)
    requires Open(k, t, height) && NoDup(dels) && v in k.order
    ensures Left(k, WithdrawAllRewards(k, t, dels, height, failed), v) ==
            Max(0, Left(k, t, v) - EntitledSum(k, t, dels, height, failed, v))
  {
    hide Open, WithdrawRewards, Withdrawable, Entitled, Due, Left;
    if dels == [] {
      LeftNotNegative(k, t, height, v);
    } else {
      var init, d := dels[..|dels| - 1], dels[|dels| - 1];
      LeftClosed(k, t, init, height, failed, v);
      LeftStep(k, t, init, d, height, failed, v);
    }
  }

  lemma LeftNotNegative(k: View, t: Distr, height: nat, v: Addr)
    requires Open(k, t, height) && v in k.order
    ensures Left(k, t, v) >= 0
  {
    LeftIs(k, t, v);
  }

  lemma LeftStep(k: View, t: Distr, init: seq<DelKey>, d: DelKey, height: nat, failed: set<DelKey>, v: Addr)
    requires Open(k, t, height) && d !in init && v in k.order
    ensures var s := WithdrawAllRewards(k, t, init, height, failed);
      var s' := if d in failed then s else WithdrawRewards(k, s, d, height);
      && Left(k, s', v) ==
         (if Served(k, t, failed, d) && d.val == v
          then Max(0, Left(k, s, v) - Entitled(k, t, d, height))
          else Left(k, s, v))
      && (Served(k, t, failed, d) ==> Entitled(k, t, d, height) >= 0)
  {
    hide Open, WithdrawRewards, WithdrawAllRewards, Entitled, Due, Left;
    var s := WithdrawAllRewards(k, t, init, height, failed);
    OpenThrough(k, t, init, height, failed);
    if d !in failed {
      if Withdrawable(k, t, d) {
        EntitledThrough(k, t, init, height, failed, d);
        EntitledNotNegative(k, s, d, height);
        LeftNotNegative(k, s, height, v);
        LeftAfter(k, s, d, height, v);
      } else {
        OutsiderUnpaid(k, s, d, height);
      }
    }
  }

  /**
   What a delegation receives at its turn: what it had accrued before the loop began, cut to what
   the delegations of its validator served before it have left over.
  */
  lemma ReceivedIs(k: View, t: Distr, height: nat, failed: set<DelKey>, i: nat)
    requires Open(k, t, height) && i < |k.dels| && Served(k, t, failed, k.dels[i])
    ensures var d := k.dels[i];
      Received(k, t, k.dels, height, failed, i) ==
      Min(Entitled(k, t, d, height),
          Max(0, Left(k, t, d.val) - EntitledSum(k, t, k.dels[..i], height, failed, d.val)))
  {
    hide Inv, Known, Fits, Solvent, WithdrawRewards, WithdrawAllRewards, Entitled, Due, Left;
    var init, d := k.dels[..i], k.dels[i];
    EntitledThrough(k, t, init, height, failed, d);
    EntitledNotNegative(k, WithdrawAllRewards(k, t, init, height, failed), d, height);
    LeftClosed(k, t, init, height, failed, d.val);
  }

  /** Every validator's claims fit in what it has left. */
  ghost predicate ClaimsFit(k: View, t: Distr, height: nat, failed: set<DelKey>) {
    forall v :: v in k.order ==> EntitledSum(k, t, k.dels, height, failed, v) <= Left(k, t, v)
  }

  /** Every delegation that is served receives all it has accrued. */
  ghost predicate NobodyCut(k: View, t: Distr, height: nat, failed: set<DelKey>) {
    forall i :: 0 <= i < |k.dels| && Served(k, t, failed, k.dels[i]) ==>
      Received(k, t, k.dels, height, failed, i) == Entitled(k, t, k.dels[i], height)
  }

  lemma {:induction false} SumGrows(k: View, t: Distr, dels: seq<DelKey>, n: nat, height: nat,
                                    failed: set<DelKey>, v: Addr)
    requires Open(k, t, height) && n <= |dels|
    ensures EntitledSum(k, t, dels[..n], height, failed, v) <= EntitledSum(k, t, dels, height, failed, v)
    decreases |dels|
  {
    hide Inv, Known, Fits, Solvent, Entitled;
    if n == |dels| {
      assert dels[..n] == dels;
    } else {
      var init, d := dels[..|dels| - 1], dels[|dels| - 1];
      assert init[..n] == dels[..n];
      SumGrows(k, t, init, n, height, failed, v);
      if Served(k, t, failed, d) {
        EntitledNotNegative(k, t, d, height);
      }
    }
  }

  lemma {:induction false} UncutSumFits(k: View, t: Distr, n: nat, height: nat, failed: set<DelKey>, v: Addr)
    requires Open(k, t, height) && NobodyCut(k, t, height, failed) && n <= |k.dels| && v in k.order
    ensures EntitledSum(k, t, k.dels[..n], height, failed, v) <= Left(k, t, v)
  {
    hide Inv, Known, Fits, Solvent, Entitled, Received, Left;
    if n == 0 {
      LeftNotNegative(k, t, height, v);
    } else {
      UncutSumFits(k, t, n - 1, height, failed, v);
      var d := k.dels[n - 1];
      assert k.dels[..n][..n - 1] == k.dels[..n - 1];
      if Served(k, t, failed, d) && d.val == v {
        ReceivedIs(k, t, height, failed, n - 1);
      }
    }
  }

  /**
   No payout is cut exactly when every validator's claims fit. Then each delegation receives what
   it had accrued before the loop, whatever the order of the list and whichever other calls fail.
  */
  lemma UncutIff(k: View, t: Distr, height: nat, failed: set<DelKey>)
    requires Open(k, t, height)
    ensures NobodyCut(k, t, height, failed) <==> ClaimsFit(k, t, height, failed)
  {
    hide Inv, Known, Fits, Solvent, Entitled, Received, Left;
    if NobodyCut(k, t, height, failed) {
      forall v | v in k.order ensures EntitledSum(k, t, k.dels, height, failed, v) <= Left(k, t, v) {
        assert k.dels[..|k.dels|] == k.dels;
        UncutSumFits(k, t, |k.dels|, height, failed, v);
      }
    }
    if ClaimsFit(k, t, height, failed) {
      forall i | 0 <= i < |k.dels| && Served(k, t, failed, k.dels[i])
        ensures Received(k, t, k.dels, height, failed, i) == Entitled(k, t, k.dels[i], height)
      {
        var d := k.dels[i];
        assert k.dels[..i + 1][..i] == k.dels[..i];
        SumGrows(k, t, k.dels, i + 1, height, failed, d.val);
        ReceivedIs(k, t, height, failed, i);
        EntitledNotNegative(k, t, d, height);
      }
    }
  }

  // ----- from the state that is exported -----

  lemma SameEntitled(k: View, s: Distr, t: Distr, d: DelKey, height: nat)
    requires Inv(k, s) && Inv(k, t) && t.book == s.book && d.val in k.order
    ensures Entitled(k, t, d, height) == Entitled(k, s, d, height)
  {
    hide Sound, IncrementPeriod, RewardsOf;
    IncrementIs(k, s, d.val);
    IncrementIs(k, t, d.val);
  }

  /** A commission withdrawal takes the same from the commission and from what is outstanding. */
  lemma CommissionFromOutstanding(k: View, s: Distr, v: Addr, u: Addr)
    requires Start(k, s) && v in k.order
    ensures var t := WithdrawCommission(s, v);
      At(t.money.outstanding, u) - At(t.money.commission, u) == At(s.money.outstanding, u) - At(s.money.commission, u)
  {
    hide Sound, Known;
    PayCommissionKeeps(k, s.money, s.book, v);
  }

  lemma {:induction false} CommissionsFromOutstanding(k: View, s: Distr, vals: seq<Addr>, failed: set<Addr>, u: Addr)
    requires Start(k, s) && forall v :: v in vals ==> v in k.order
    ensures var t := WithdrawCommissions(s, vals, failed);
      At(t.money.outstanding, u) - At(t.money.commission, u) == At(s.money.outstanding, u) - At(s.money.commission, u)
  {
    hide Start, WithdrawCommission;
    if vals != [] {
      var init := vals[..|vals| - 1];
      CommissionsKeep(k, s, init, failed);
      CommissionsFromOutstanding(k, s, init, failed, u);
      CommissionFromOutstanding(k, WithdrawCommissions(s, init, failed), vals[|vals| - 1], u);
    }
  }

  lemma OpenAfterCommissions(k: View, s: Distr, height: nat, f: Failures)
    requires Ready(k, s, height) && Solvent(s.money)
    ensures var t := WithdrawCommissions(s, k.order, f.commission);
      Open(k, t, height) && t.book == s.book && Inv(k, s)
  {
    hide Sound, Owed, Known, Solvent, Fits;
    CommissionsKeep(k, s, k.order, f.commission);
    CommissionsSolvent(k, s, k.order, f.commission);
    StartIsInv(k, s);
    StartIsInv(k, WithdrawCommissions(s, k.order, f.commission));
  }

  /**
   The payouts of a run. The commissions are taken first and leave each validator less for its
   delegations by just what they took; claims are as they were before the export; each delegation
   served receives the whole tokens of its claim cut to what is left at its turn; and nobody is
   cut exactly when all claims fit.
  */
  lemma PayoutsOfRun(k: View, s: Distr, height: nat, f: Failures)
    requires Ready(k, s, height) && Solvent(s.money)
    ensures var t := WithdrawCommissions(s, k.order, f.commission);
      && (forall v :: v in k.order ==>
            Left(k, t, v) == Left(k, s, v) - (At(s.money.commission, v) - At(t.money.commission, v)))
      && (forall d :: Withdrawable(k, s, d) ==>
            Withdrawable(k, t, d) && Entitled(k, t, d, height) == Entitled(k, s, d, height))
      && (forall i :: 0 <= i < |k.dels| && Served(k, s, f.rewards, k.dels[i]) ==> PaysTurn(k, t, height, f.rewards, i))
      && (NobodyCut(k, t, height, f.rewards) <==> ClaimsFit(k, t, height, f.rewards))
  {
    hide Inv, Known, Fits, Solvent, Ready, Entitled, Left, PaysTurn, NobodyCut, ClaimsFit, WithdrawAllRewards;
    var t := WithdrawCommissions(s, k.order, f.commission);
    OpenAfterCommissions(k, s, height, f);
    forall v | v in k.order
      ensures Left(k, t, v) == Left(k, s, v) - (At(s.money.commission, v) - At(t.money.commission, v))
    {
      LeftIs(k, s, v);
      LeftIs(k, t, v);
      ReadyStarts(k, s, height);
      CommissionsFromOutstanding(k, s, k.order, f.commission, v);
    }
    forall d | Withdrawable(k, s, d)
      ensures Withdrawable(k, t, d) && Entitled(k, t, d, height) == Entitled(k, s, d, height)
    {
      SameEntitled(k, s, t, d, height);
    }
    forall i | 0 <= i < |k.dels| && Served(k, s, f.rewards, k.dels[i])
      ensures PaysTurn(k, t, height, f.rewards, i)
    {
      PaidAtTurn(k, t, height, f.rewards, i);
    }
    UncutIff(k, t, height, f.rewards);
  }

  lemma ReadyStarts(k: View, s: Distr, height: nat)
    requires Ready(k, s, height)
    ensures Start(k, s)
  {
  }

  /** The i-th turn pays the whole tokens of the claim, cut to what is left. */
  ghost predicate PaysTurn(k: View, t: Distr, height: nat, failed: set<DelKey>, i: nat)
    requires i < |k.dels|
  {
    var before := WithdrawAllRewards(k, t, k.dels[..i], height, failed);
    var after := WithdrawAllRewards(k, t, k.dels[..i + 1], height, failed);
    var d := k.dels[i];
    before.money.bal - after.money.bal ==
      Min(Entitled(k, t, d, height),
          Max(0, Left(k, t, d.val) - EntitledSum(k, t, k.dels[..i], height, failed, d.val))) / PRECISION
  }

  lemma PaidAtTurn(k: View, t: Distr, height: nat, failed: set<DelKey>, i: nat)
    requires Open(k, t, height) && i < |k.dels| && Served(k, t, failed, k.dels[i])
    ensures PaysTurn(k, t, height, failed, i)
  {
    hide Inv, Known, Fits, Solvent, Entitled, Left, WithdrawAllRewards, Due;
    TurnPaid(k, t, k.dels, height, failed, i);
    ReceivedIs(k, t, height, failed, i);
  }
}
