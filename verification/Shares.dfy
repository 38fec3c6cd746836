/**
 How much a delegation accrues: its stake's part of the rewards per token that were recorded since
 it started, each slash taking its fraction of what is earned afterwards.
*/
module Shares {
  import opened Base
  import opened Distribution
  import opened Invariants
  import opened ZeroHeight
  import opened Rebuilding
  import opened ExportTheorems
  import opened Solvency
  import opened Payouts

  // ----- a delegation that no slash concerns -----

  /** Every slash event of the validator is before the delegation's start or outside its heights. */
  ghost predicate Unslashed(b: Book, d: DelKey, height: nat)
    requires d in b.starting
  {
    d.val in b.slashes ==> forall e :: e in b.slashes[d.val] ==>
      e.period <= b.starting[d].period || e.height < b.starting[d].height || e.height > height
  }

  lemma {:induction false} UnslashedAccrued(b: Book, v: Addr, events: seq<SlashEvent>, lo: nat, hi: nat,
                                            from: nat, to: nat, stake: int, worth: nat)
    requires forall e :: e in events ==> e.period <= from || e.height < lo || e.height > hi
    ensures Accrued(b, v, events, lo, hi, from, to, stake, worth) == LastStretch(b, v, from, to, stake, worth)
    decreases events
  {
    hide LastStretch, Between;
    if events != [] {
      assert events[0] in events;
      UnslashedAccrued(b, v, events[1..], lo, hi, from, to, stake, worth);
    }
  }

  lemma Rest(a: int, b: int)
    requires b > 0
    ensures 0 <= a - a / b * b < b
  {
  }

  /** The stretch is defined up to a margin of 3, and earns on the smaller of stake and worth. */
  lemma LastStretchIs(b: Book, v: Addr, from: nat, to: nat, stake: nat, worth: nat)
    requires from <= to && Ratio(b, RecKey(v, from)) <= Ratio(b, RecKey(v, to))
    ensures var e := LastStretch(b, v, from, to, stake, worth);
      var gain := Ratio(b, RecKey(v, to)) - Ratio(b, RecKey(v, from));
      && (e.None? <==> stake > worth + 3)
      && (e.Some? ==> 0 <= gain * (if stake <= worth then stake else worth) - e.value * PRECISION < PRECISION)
  {
    hide Ratio;
    var gain := Ratio(b, RecKey(v, to)) - Ratio(b, RecKey(v, from));
    Rest(gain * Min(stake, worth), PRECISION);
  }

  /** The ratio recorded for a period. */
  ghost function Recorded(b: Book, v: Addr, period: nat): int
    requires RecKey(v, period) in b.history
  {
    b.history[RecKey(v, period)].ratio
  }

  /** The records that an unslashed delegation's rewards are read from. */
  ghost predicate HasRecords(b: Book, d: DelKey) {
    && d in b.starting && RecKey(d.val, b.starting[d].period) in b.history
    && d.val in b.current && b.current[d.val].period >= 1
    && RecKey(d.val, b.current[d.val].period - 1) in b.history
  }

  /** How far the recorded ratio has grown since the delegation started. */
  ghost function Growth(b: Book, d: DelKey): int
    requires HasRecords(b, d)
  {
    Recorded(b, d.val, b.current[d.val].period - 1) - Recorded(b, d.val, b.starting[d].period)
  }

  lemma SoundHasRecords(k: View, b: Book, d: DelKey)
    requires WellFormed(k) && Sound(k, b) && d in b.starting
    ensures HasRecords(b, d) && Growth(b, d) >= 0
    ensures b.starting[d].period < b.current[d.val].period == Cur(b, d.val).period
  {
    hide RefsMatch, OnePointer;
    RecordsOf(k, b, d);
    LastIsRecorded(k, b, d.val);
  }

  /**
   On any sound book: the keeper's comparison fails beyond a margin of 3; otherwise the rewards are
   the growth of the recorded ratio times the smaller of stake and worth, cut to the decimals kept.
  */
  lemma UnslashedRewards(k: View, b: Book, d: DelKey, height: nat)
    requires WellFormed(k) && Sound(k, b) && d in b.starting
    requires b.starting[d].height != height && Unslashed(b, d, height)
    ensures HasRecords(b, d)
    ensures var e, stake, worth := RewardsOf(k, b, d, height), b.starting[d].stake, WorthOf(k, d);
      && (e.None? <==> stake > worth + 3)
      && (e.Some? ==>
            0 <= Growth(b, d) * (if stake <= worth then stake else worth) - e.value * PRECISION < PRECISION)
  {
    hide RefsMatch, OnePointer, Monotone, Accrued, LastStretch;
    SoundHasRecords(k, b, d);
    var info, to := b.starting[d], b.current[d.val].period - 1;
    LastStretchIs(b, d.val, info.period, to, info.stake, WorthOf(k, d));
    UnslashedAccrued(b, d.val, EventsFor(b, d, height), info.height, height, info.period, to, info.stake,
                     WorthOf(k, d));
  }

  /** The delegation passes the keeper's comparison without a cut and was not started at this height. */
  ghost predicate Earning(k: View, b: Book, d: DelKey, height: nat)
    requires d in b.starting
  {
    b.starting[d].height != height && Unslashed(b, d, height) && b.starting[d].stake <= WorthOf(k, d)
  }

  /**
   Rewards add up: taken once in the middle, and from there on to the end, or all at the end, they
   differ by at most one unit of the last decimal.
  */
  lemma RewardsAddUp(k: View, first: Book, second: Book, whole: Book, d: DelKey, height: nat)
    requires WellFormed(k) && Sound(k, first) && Sound(k, second) && Sound(k, whole)
    requires HasRecords(first, d) && HasRecords(second, d) && HasRecords(whole, d)
    requires Earning(k, first, d, height) && Earning(k, second, d, height) && Earning(k, whole, d, height)
    requires first.starting[d].stake == second.starting[d].stake == whole.starting[d].stake
    requires Growth(first, d) + Growth(second, d) == Growth(whole, d)
    ensures var a, b := RewardsOf(k, first, d, height), RewardsOf(k, second, d, height);
      var c := RewardsOf(k, whole, d, height);
      a.Some? && b.Some? && c.Some? && 0 <= c.value - (a.value + b.value) <= 1
  {
    hide Sound, RewardsOf, Unslashed, Growth;
    UnslashedRewards(k, first, d, height);
    UnslashedRewards(k, second, d, height);
    UnslashedRewards(k, whole, d, height);
    var stake := whole.starting[d].stake;
    assert Growth(whole, d) * stake == Growth(first, d) * stake + Growth(second, d) * stake;
  }

  // ----- with the rewards of the running period -----

  lemma ShareArithmetic(rewards: int, tokens: nat, growth: int, stake: nat, gain: int, e: int)
    requires tokens > 0 && 0 <= rewards - gain * tokens < tokens
    requires 0 <= (growth + gain) * stake - e * PRECISION < PRECISION
    ensures 0 <= (rewards + tokens * growth) * stake - e * tokens * PRECISION < tokens * (stake + PRECISION)
  {
    var r, u := rewards - gain * tokens, (growth + gain) * stake - e * PRECISION;
    assert (rewards + tokens * growth) * stake == r * stake + tokens * ((growth + gain) * stake);
    assert tokens * u == tokens * ((growth + gain) * stake) - e * tokens * PRECISION;
    assert 0 <= r * stake <= tokens * stake by {
      assert (tokens - r) * stake >= 0;
    }
    assert 0 <= tokens * u < tokens * PRECISION by {
      assert tokens * (PRECISION - u) > 0;
    }
  }

  /** Ending the running period lets the growth rise by the running rewards per token. */
  lemma GrowthEnded(k: View, b: Book, d: DelKey, gain: int)
    requires HasRecords(b, d) && HasRecords(EndPeriod(b, d.val, gain), d)
    requires b.starting[d].period < b.current[d.val].period
    ensures Growth(EndPeriod(b, d.val, gain), d) == Growth(b, d) + gain
  {
    EndPeriodRatios(b, d.val, gain);
  }

  /**
   What a delegation has accrued, by its validator's running rewards and tokens and by the recorded
   ratios: its stake's part of the running rewards, and the growth of the ratio on its stake.
  */
  lemma ShareIs(k: View, s: Distr, d: DelKey, height: nat)
    requires WellFormed(k) && Inv(k, s) && Withdrawable(k, s, d) && Earning(k, s.book, d, height)
    ensures HasRecords(s.book, d) && s.book.current[d.val].rewards >= 0 && Growth(s.book, d) >= 0
    ensures var rewards, stake := s.book.current[d.val].rewards, s.book.starting[d].stake;
      var accrued := Entitled(k, s, d, height);
      if d.val in k.tokens && k.tokens[d.val] > 0
      then 0 <= (rewards + k.tokens[d.val] * Growth(s.book, d)) * stake - accrued * k.tokens[d.val] * PRECISION
             < k.tokens[d.val] * (stake + PRECISION)
      else 0 <= Growth(s.book, d) * stake - accrued * PRECISION < PRECISION
  {
    hide Sound, IncrementPeriod, RewardsOf, Growth, EndPeriod, HasRecords;
    var gain := PerToken(Cur(s.book, d.val).rewards, Tokens(k, d.val));
    SoundHasRecords(k, s.book, d);
    IncrementIs(k, s, d.val);
    IncrementKeeps(k, s, d.val);
    EndedEarning(k, s.book, d, height, gain);
    UnslashedRewards(k, EndPeriod(s.book, d.val, gain), d, height);
    GrowthEnded(k, s.book, d, gain);
    RunningRewards(k, s, d);
    if Tokens(k, d.val) > 0 {
      Rest(Cur(s.book, d.val).rewards, Tokens(k, d.val));
      ShareArithmetic(Cur(s.book, d.val).rewards, Tokens(k, d.val), Growth(s.book, d), s.book.starting[d].stake,
                      gain, Entitled(k, s, d, height));
    }
  }

  lemma EndedEarning(k: View, b: Book, d: DelKey, height: nat, gain: int)
    requires d in b.starting && Earning(k, b, d, height) && Cur(b, d.val).period >= 1
    ensures var c := EndPeriod(b, d.val, gain);
      d in c.starting && c.starting[d] == b.starting[d] && Earning(k, c, d, height)
  {
  }

  lemma RunningRewards(k: View, s: Distr, d: DelKey)
    requires Inv(k, s) && Withdrawable(k, s, d) && HasRecords(s.book, d)
    ensures s.book.current[d.val].rewards == Cur(s.book, d.val).rewards >= 0
  {
  }

  /** A delegation started at the last ended period earns its stake's part of the running rewards. */
  lemma RunningShare(k: View, s: Distr, d: DelKey, height: nat)
    requires WellFormed(k) && Inv(k, s) && Withdrawable(k, s, d)
    requires d.val in k.tokens && k.tokens[d.val] > 0 && d.val in s.book.current
    requires s.book.starting[d].period + 1 == s.book.current[d.val].period
    requires s.book.starting[d].height != height && s.book.starting[d].stake <= WorthOf(k, d)
    ensures var rewards, tokens, stake := s.book.current[d.val].rewards, k.tokens[d.val], s.book.starting[d].stake;
      0 <= rewards * stake - Entitled(k, s, d, height) * tokens * PRECISION < tokens * (stake + PRECISION)
  {
    hide RefsMatch, OnePointer, Monotone, Entitled;
    ShareIs(k, s, d, height);
  }

  // ----- in a run -----

  lemma WholeTokens(x: int, e: int, tokens: nat, stake: nat)
    requires tokens > 0 && 0 <= x - e * tokens * PRECISION < tokens * (stake + PRECISION)
    ensures 0 <= x - e / PRECISION * tokens * PRECISION * PRECISION
              < tokens * (stake + PRECISION + PRECISION * PRECISION)
  {
    Rest(e, PRECISION);
    PartsTimes(e / PRECISION, e - e / PRECISION * PRECISION, tokens);
    Distribute(tokens, stake + PRECISION, PRECISION * PRECISION);
  }

  lemma PartsTimes(w: int, r: int, tokens: nat)
    requires 0 <= r < PRECISION
    ensures 0 <= (w * PRECISION + r) * tokens - w * tokens * PRECISION <= tokens * PRECISION
  {
    Distribute(tokens, w * PRECISION, r);
    assert 0 <= r * tokens && 0 <= (PRECISION - r) * tokens;
  }

  /**
   In a solvent run in which the claims fit, the whole tokens that leave the module account at the
   turn of an earning delegation, by the records of the state that is exported.
  */
  lemma TurnPaysShare(k: View, s: Distr, height: nat, f: Failures, i: nat)
    requires Ready(k, s, height) && Solvent(s.money) && i < |k.dels| && Served(k, s, f.rewards, k.dels[i])
    requires Earning(k, s.book, k.dels[i], height) && k.dels[i].val in k.tokens && k.tokens[k.dels[i].val] > 0
    requires ClaimsFit(k, WithdrawCommissions(s, k.order, f.commission), height, f.rewards)
    ensures HasRecords(s.book, k.dels[i])
    ensures var t, d := WithdrawCommissions(s, k.order, f.commission), k.dels[i];
      var before := WithdrawAllRewards(k, t, k.dels[..i], height, f.rewards);
      var after := WithdrawAllRewards(k, t, k.dels[..i + 1], height, f.rewards);
      var rewards, tokens, stake := s.book.current[d.val].rewards, k.tokens[d.val], s.book.starting[d].stake;
      var paid := before.money.bal - after.money.bal;
      0 <= (rewards + tokens * Growth(s.book, d)) * stake - paid * tokens * PRECISION * PRECISION
        < tokens * (stake + PRECISION + PRECISION * PRECISION)
  {
    hide Ready, Inv, Known, Fits, Solvent, Entitled, Left, WithdrawAllRewards, Due, Growth, Earning, ClaimsFit;
    var t, d := WithdrawCommissions(s, k.order, f.commission), k.dels[i];
    OpenAfterCommissions(k, s, height, f);
    SameEntitled(k, s, t, d, height);
    UncutIff(k, t, height, f.rewards);
    TurnPaid(k, t, k.dels, height, f.rewards, i);
    ShareIs(k, s, d, height);
    WholeTokens((s.book.current[d.val].rewards + k.tokens[d.val] * Growth(s.book, d)) * s.book.starting[d].stake,
                Entitled(k, s, d, height), k.tokens[d.val], s.book.starting[d].stake);
  }

  // ----- all delegations of a validator together -----

  /** The stakes that v's delegations in the list, failing calls aside, have together. */
  ghost function ServedStakes(k: View, t: Distr, dels: seq<DelKey>, failed: set<DelKey>, v: Addr): nat {
    if dels == [] then 0
    else
      var d := dels[|dels| - 1];
      ServedStakes(k, t, dels[..|dels| - 1], failed, v) +
      if Served(k, t, failed, d) && d.val == v then t.book.starting[d].stake else 0
  }

  /** What the recorded ratios alone let them earn together, times PRECISION. */
  ghost function Backlog(k: View, t: Distr, dels: seq<DelKey>, failed: set<DelKey>, v: Addr): int {
    if dels == [] then 0
    else
      var d := dels[|dels| - 1];
      Backlog(k, t, dels[..|dels| - 1], failed, v) +
      if Served(k, t, failed, d) && d.val == v && HasRecords(t.book, d)
      then Growth(t.book, d) * t.book.starting[d].stake
      else 0
  }

  ghost predicate AllEarning(k: View, t: Distr, dels: seq<DelKey>, height: nat, failed: set<DelKey>, v: Addr) {
    forall d :: d in dels && Served(k, t, failed, d) && d.val == v ==> Earning(k, t.book, d, height)
  }

  /** One more claim. */
  lemma AddShare(rewards: int, tokens: nat, stakes: int, backlog: int, sum: int, n: nat,
                 growth: int, stake: nat, e: int)
    requires 0 <= rewards * stakes + tokens * backlog - sum * tokens * PRECISION <= tokens * (stakes + n * PRECISION)
    requires 0 <= (rewards + tokens * growth) * stake - e * tokens * PRECISION <= tokens * (stake + PRECISION)
    ensures 0 <= rewards * (stakes + stake) + tokens * (backlog + growth * stake) - (sum + e) * tokens * PRECISION
              <= tokens * (stakes + stake + (n + 1) * PRECISION)
  {
    Distribute(rewards, stakes, stake);
    Distribute(tokens, backlog, growth * stake);
    Distribute(tokens * PRECISION, sum, e);
    Distribute(tokens, stakes + n * PRECISION, stake + PRECISION);
    GrowthApart(rewards, tokens, growth, stake);
    Swap(tokens, sum);
    Swap(tokens, e);
    Swap(tokens, sum + e);
  }

  lemma Distribute(a: int, b: int, c: int)
    ensures a * (b + c) == a * b + a * c
  {
  }

  lemma GrowthApart(rewards: int, tokens: int, growth: int, stake: int)
    ensures (rewards + tokens * growth) * stake == rewards * stake + tokens * (growth * stake)
  {
  }

  lemma Swap(tokens: int, e: int)
    ensures tokens * PRECISION * e == e * tokens * PRECISION
  {
  }

  lemma MoreSlack(tokens: nat, stakes: int, n: nat)
    ensures tokens * (stakes + n * PRECISION) <= tokens * (stakes + (n + 1) * PRECISION)
  {
    Distribute(tokens, stakes + n * PRECISION, PRECISION);
  }

  /**
   The claims for a validator come to its running rewards in the proportion of the stakes to its
   tokens, and what the recorded ratios gave before, up to less than one unit and one unit of
   stake for each.
  */
  lemma {:induction false} TogetherIs(k: View, t: Distr, dels: seq<DelKey>, height: nat, failed: set<DelKey>, v: Addr)
    requires Open(k, t, height) && AllEarning(k, t, dels, height, failed, v)
    requires v in k.tokens && k.tokens[v] > 0 && v in t.book.current
    ensures var rewards, tokens, stakes := t.book.current[v].rewards, k.tokens[v], ServedStakes(k, t, dels, failed, v);
      0 <= rewards * stakes + tokens * Backlog(k, t, dels, failed, v)
           - EntitledSum(k, t, dels, height, failed, v) * tokens * PRECISION
        <= tokens * (stakes + |dels| * PRECISION)
  {
    hide Inv, Known, Fits, Solvent, Entitled, Earning, Growth, HasRecords, PRECISION;
    if dels != [] {
      var init, d := dels[..|dels| - 1], dels[|dels| - 1];
      TogetherIs(k, t, init, height, failed, v);
      var rewards, tokens := t.book.current[v].rewards, k.tokens[v];
      var stakes, backlog := ServedStakes(k, t, init, failed, v), Backlog(k, t, init, failed, v);
      var sum := EntitledSum(k, t, init, height, failed, v);
      if Served(k, t, failed, d) && d.val == v {
        ShareIs(k, t, d, height);
        AddShare(rewards, tokens, stakes, backlog, sum, |init|, Growth(t.book, d), t.book.starting[d].stake,
                 Entitled(k, t, d, height));
      } else {
        MoreSlack(tokens, stakes, |init|);
      }
    }
  }

  /**
   Delegations for which only the running period has paid anything accrue together at most the
   running rewards, as long as their stakes add up to no more than the validator's tokens.
  */
  lemma AtMostTheRewards(k: View, t: Distr, dels: seq<DelKey>, height: nat, failed: set<DelKey>, v: Addr)
    requires Open(k, t, height) && AllEarning(k, t, dels, height, failed, v)
    requires v in k.tokens && k.tokens[v] > 0 && v in t.book.current && t.book.current[v].rewards >= 0
    requires Backlog(k, t, dels, failed, v) == 0
    requires ServedStakes(k, t, dels, failed, v) <= k.tokens[v] * PRECISION
    ensures EntitledSum(k, t, dels, height, failed, v) <= t.book.current[v].rewards
  {
    hide Open, AllEarning, ServedStakes, Backlog, EntitledSum;
    TogetherIs(k, t, dels, height, failed, v);
    PartAtMost(t.book.current[v].rewards, k.tokens[v] * PRECISION, ServedStakes(k, t, dels, failed, v),
               EntitledSum(k, t, dels, height, failed, v));
  }

  lemma PartAtMost(rewards: int, whole: int, part: nat, e: int)
    requires rewards >= 0 && 0 < whole && part <= whole && e * whole <= rewards * part
    ensures e <= rewards
  {
    assert rewards * part <= rewards * whole by {
      assert rewards * (whole - part) >= 0;
    }
    assert (rewards - e) * whole >= 0;
  }

  /**
   A delegation that holds all 100 tokens of its validator receives all of the 50 tokens of running
   rewards. Decimals are written out.
  */
  lemma FiftyTokens()
    ensures var d := DelKey("v", "a");
      var hundred, fifty := 100_000_000_000_000_000_000, 50_000_000_000_000_000_000;
      var k := View(["v"], map["v" := 100], [d], map[d := hundred], map[d := hundred]);
      var m := Money(80, map[], map[], 0, map["v" := fifty], map[]);
      var b := Book(map[RecKey("v", 1) := Historical(0, 2)], map["v" := Current(fifty, 2)],
                    map[d := StartingInfo(1, hundred, 3)], map[]);
      var t := WithdrawRewards(k, Distr(m, b, false), d, 9);
      && !t.panicked && t.money == Money(30, map["a" := 50], map[], 0, map["v" := 0], map[])
      && t.book.starting == map[d := StartingInfo(2, hundred, 9)]
      && t.book.current == map["v" := Current(0, 3)]
      && t.book.history == map[RecKey("v", 2) := Historical(500_000_000_000_000_000, 2)]
  {
    var d := DelKey("v", "a");
    var hundred, fifty := 100_000_000_000_000_000_000, 50_000_000_000_000_000_000;
    var k := View(["v"], map["v" := 100], [d], map[d := hundred], map[d := hundred]);
    var m := Money(80, map[], map[], 0, map["v" := fifty], map[]);
    var b := Book(map[RecKey("v", 1) := Historical(0, 2)], map["v" := Current(fifty, 2)],
                  map[d := StartingInfo(1, hundred, 3)], map[]);
    var s := Distr(m, b, false);
    var gain := 500_000_000_000_000_000;
    assert k.dels[0] == d && k.order[0] == "v";
    var t := IncrementPeriod(k, s, "v");
    assert t == s.(book := EndPeriod(b, "v", gain));
    assert t.book.history == map[RecKey("v", 1) := Historical(0, 1), RecKey("v", 2) := Historical(gain, 1)];
    assert RewardsOf(k, t.book, d, 9) == Some(fifty);
    var u := t.(money := PayRewards(m, d, fifty));
    assert u.money == Money(30, map["a" := 50], map[], 0, map["v" := 0], map[]);
    var w := StopDelegation(u, d);
    assert w.book.history == map[RecKey("v", 2) := Historical(gain, 1)];
  }
}
