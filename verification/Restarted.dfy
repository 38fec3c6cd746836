/**
 What the prepared state promises the restarted chain: every delegation starts with its shares'
 part of the tokens, and is later paid its shares' part of the rewards, for which there is enough.
*/
module Restarted {
  import opened Base
  import opened Distribution
  import opened Invariants
  import opened ZeroHeight
  import opened ClosedForm
  import opened ExportTheorems
  import opened Payouts
  import opened Shares
  import opened Staking

  // ----- stakes -----

  lemma ListedInOrder(st: Stores, s: Distr, height: nat, i: nat)
    requires Keyed(st) && Ready(ViewOf(st), s, height) && i < |st.dels|
    ensures ViewOf(st).dels[i] == st.dels[i].key && st.dels[i].key in ViewOf(st).dels && NoDup(DelKeys(st.dels))
    ensures st.dels[i].key.val in st.order && st.dels[i].key.val in st.validators
  {
    assert ViewOf(st).dels[i] == st.dels[i].key;
  }

  /**
   The stake in the exported starting info, by the records of the delegation and its validator: the
   shares' part of the tokens up to less than one unit, and all the tokens for all the shares.
  */
  lemma PreparedStake(st: Stores, s: Distr, height: nat, f: Failures, i: nat)
    requires Keyed(st) && Ready(ViewOf(st), s, height) && i < |st.dels|
    ensures var d, shares, p := st.dels[i].key, st.dels[i].shares, Prep(ViewOf(st), s, height, f);
      && d.val in st.validators && d in p.book.starting
      && var val, stake := st.validators[d.val], p.book.starting[d].stake;
      && (val.shares > 0 ==> 0 <= shares * val.tokens * PRECISION - stake * val.shares < val.shares)
      && (val.shares > 0 && shares == val.shares ==> stake == val.tokens * PRECISION)
      && (val.shares == 0 ==> stake == 0)
  {
    hide Ready, Prep, TokensFromShares, Closed, Keyed, Count;
    var d := st.dels[i].key;
    ListedInOrder(st, s, height, i);
    PrepClosedForm(ViewOf(st), s, height, f);
    assert ViewOf(st).dels[i] == d;
    ReadsOf(st.validators, st.dels, i);
    if st.validators[d.val].shares > 0 {
      StakeIsShare(st.validators[d.val], st.dels[i].shares);
    } else {
      NoShares(st.validators[d.val], st.dels[i].shares);
    }
  }

  lemma NoShares(v: Validator, shares: nat)
    requires v.shares == 0
    ensures TokensFromShares(v, shares) == 0 && WorthOfShares(v, shares) == 0
  {
  }

  /** The worth that distribution compares with, by the same records, up to half a unit. */
  lemma WorthSeen(st: Stores, i: nat)
    requires NoDup(DelKeys(st.dels)) && i < |st.dels| && st.dels[i].key.val in st.validators
    requires st.validators[st.dels[i].key.val].shares > 0
    ensures var d, shares, val := st.dels[i].key, st.dels[i].shares, st.validators[st.dels[i].key.val];
      && d in ViewOf(st).worth
      && -(PRECISION + 2) * val.shares
           < 2 * PRECISION * (ViewOf(st).worth[d] * val.shares - shares * val.tokens * PRECISION)
           <= PRECISION * val.shares
  {
    hide WorthOfShares;
    ReadsOf(st.validators, st.dels, i);
    WorthIsShare(st.validators[st.dels[i].key.val], st.dels[i].shares);
  }

  // ----- the restarted chain -----

  /** Nothing has happened to the prepared book p yet but that rewards have come in. */
  ghost predicate Resumed(p: Book, b: Book) {
    && b.history == p.history && b.starting == p.starting && b.slashes == p.slashes
    && b.current.Keys == p.current.Keys
    && forall v :: v in p.current ==> b.current[v].period == p.current[v].period
  }

  lemma RatiosZero(k: View, s: Distr, height: nat, f: Failures, r: RecKey)
    requires Ready(k, s, height) && r.val in k.order && r in Prep(k, s, height, f).book.history
    ensures Prep(k, s, height, f).book.history[r].ratio == 0
  {
    hide Ready, Prep;
    PrepClosedForm(k, s, height, f);
    ClosedRatio(Prep(k, s, height, f).book, r, Count(k.dels, r.val));
  }

  lemma ClosedRatio(b: Book, r: RecKey, n: nat)
    requires Closed(b, r.val, n) && r in b.history
    ensures b.history[r].ratio == 0
  {
    assert r == RecKey(r.val, r.period);
  }

  lemma OpenParts(k: View, e: Distr, h: nat)
    requires Open(k, e, h)
    ensures WellFormed(k) && Inv(k, e)
  {
  }

  lemma PreparedStart(k: View, s: Distr, height: nat, f: Failures, d: DelKey)
    requires Ready(k, s, height) && d in k.dels
    ensures var p := Prep(k, s, height, f).book;
      && d.val in k.order && d in p.starting && p.slashes == map[]
      && p.starting[d].height == 0 && p.starting[d].stake == StakeOf(k, d) <= WorthOf(k, d)
  {
    hide Sound, Owed, Prep, Closed, Count;
    NoStaleReferences(k, s, height, f);
    PrepClosedForm(k, s, height, f);
    var i :| 0 <= i < |k.dels| && k.dels[i] == d;
  }

  /** After the restart every delegation is earning, and no recorded ratio has grown. */
  lemma AllResumed(k: View, s: Distr, height: nat, f: Failures, e: Distr, h: nat, d: DelKey)
    requires Ready(k, s, height) && Resumed(Prep(k, s, height, f).book, e.book) && Open(k, e, h) && h > 0
    requires d in k.dels
    ensures Withdrawable(k, e, d) && Earning(k, e.book, d, h)
    ensures HasRecords(e.book, d) && Growth(e.book, d) == 0
  {
    hide Ready, Prep, Sound, Covered, WellFormed;
    PreparedStart(k, s, height, f, d);
    OpenParts(k, e, h);
    SoundHasRecords(k, e.book, d);
    RatiosZero(k, s, height, f, RecKey(d.val, e.book.starting[d].period));
    RatiosZero(k, s, height, f, RecKey(d.val, e.book.current[d.val].period - 1));
  }

  lemma ByShares(rewards: nat, tokens: nat, stake: nat, e: int, shares: nat, all: nat)
    requires tokens > 0 && all > 0
    requires 0 <= rewards * stake - e * tokens * PRECISION < tokens * (stake + PRECISION)
    requires 0 <= shares * tokens * PRECISION - stake * all < all
    ensures 0 <= rewards * shares - e * all
    ensures (rewards * shares - e * all) * (tokens * PRECISION) <= all * (tokens * (stake + PRECISION) + rewards)
  {
    var u, w := rewards * stake - e * tokens * PRECISION, shares * tokens * PRECISION - stake * all;
    SharesProduct(rewards, tokens * PRECISION, stake, e, shares, all, u, w);
    FactorUp(all, u, tokens * (stake + PRECISION));
    FactorUp(rewards, w, all);
    Distribute(all, tokens * (stake + PRECISION), rewards);
    NotNegative(rewards * shares - e * all, tokens * PRECISION);
  }

  lemma FactorUp(a: nat, x: nat, y: int)
    requires x <= y
    ensures 0 <= a * x <= a * y
  {
    assert a * (y - x) >= 0;
  }

  lemma SharesProduct(rewards: int, whole: int, stake: int, e: int, shares: int, all: int, u: int, w: int)
    requires u == rewards * stake - e * whole && w == shares * whole - stake * all
    ensures (rewards * shares - e * all) * whole == all * u + rewards * w
  {
    assert all * u == all * (rewards * stake) - all * (e * whole);
    assert rewards * w == rewards * (shares * whole) - rewards * (stake * all);
  }

  lemma NotNegative(x: int, b: int)
    requires b > 0 && x * b >= 0
    ensures x >= 0
  {
  }

  /**
   On the restarted chain a delegation accrues its stake's part of its validator's running rewards
   and thereby its shares' part, by the records of the exported stores.
  */
  lemma RestartedShare(st: Stores, s: Distr, height: nat, f: Failures, e: Distr, h: nat, i: nat)
    requires Keyed(st) && Ready(ViewOf(st), s, height) && Open(ViewOf(st), e, h) && h > 0 && i < |st.dels|
    requires Resumed(Prep(ViewOf(st), s, height, f).book, e.book)
    ensures var d, shares := st.dels[i].key, st.dels[i].shares;
      && d.val in st.validators && d in e.book.starting && d.val in e.book.current
      && var val, stake, rewards := st.validators[d.val], e.book.starting[d].stake, e.book.current[d.val].rewards;
      && var accrued := Entitled(ViewOf(st), e, d, h);
      && (val.tokens > 0 && val.shares > 0 ==>
            && 0 <= rewards * stake - accrued * val.tokens * PRECISION < val.tokens * (stake + PRECISION)
            && 0 <= rewards * shares - accrued * val.shares
            && (rewards * shares - accrued * val.shares) * (val.tokens * PRECISION)
                 <= val.shares * (val.tokens * (stake + PRECISION) + rewards))
      && (val.tokens == 0 ==> accrued == 0)
  {
    hide Ready, Prep, Inv, Fits, Keyed, Entitled, Growth, Earning, Stakes, Worths;
    var k, d := ViewOf(st), st.dels[i].key;
    ListedInOrder(st, s, height, i);
    AllResumed(k, s, height, f, e, h, d);
    PreparedStake(st, s, height, f, i);
    ShareIs(k, e, d, h);
    var val := st.validators[d.val];
    assert k.tokens[d.val] == val.tokens;
    if val.tokens > 0 && val.shares > 0 {
      ByShares(e.book.current[d.val].rewards, val.tokens, e.book.starting[d].stake, Entitled(k, e, d, h),
               st.dels[i].shares, val.shares);
    }
  }

  // ----- there is enough for everybody -----

  /** The shares that v's delegations have together. */
  ghost function SharesOf(dels: seq<Delegation>, v: Addr): nat {
    if dels == [] then 0
    else SharesOf(dels[..|dels| - 1], v) + if dels[|dels| - 1].key.val == v then dels[|dels| - 1].shares else 0
  }

  /** No validator's delegations have more shares than the validator itself. */
  ghost predicate SharesCovered(st: Stores) {
    forall v :: v in st.validators ==> SharesOf(st.dels, v) <= st.validators[v].shares
  }

  /** After the restart nothing is earned but from running rewards. */
  lemma {:induction false} NoBacklog(k: View, e: Distr, dels: seq<DelKey>, failed: set<DelKey>, v: Addr)
    requires forall d :: d in dels ==> HasRecords(e.book, d) && Growth(e.book, d) == 0
    ensures Backlog(k, e, dels, failed, v) == 0
  {
    hide Growth, HasRecords;
    if dels != [] {
      NoBacklog(k, e, dels[..|dels| - 1], failed, v);
    }
  }

  lemma StakeWithin(st: Stores, s: Distr, height: nat, f: Failures, e: Distr, failed: set<DelKey>, v: Addr, i: nat)
    requires Keyed(st) && Ready(ViewOf(st), s, height) && i < |st.dels| && v in st.validators
    requires Resumed(Prep(ViewOf(st), s, height, f).book, e.book)
    ensures var d, val := st.dels[i].key, st.validators[v];
      var shares := if d.val == v then st.dels[i].shares else 0;
      var stake := if Served(ViewOf(st), e, failed, d) && d.val == v then e.book.starting[d].stake else 0;
      stake * (if val.shares > 0 then val.shares else 1) <= shares * val.tokens * PRECISION
  {
    hide Ready, Prep, Keyed, Stakes, Worths;
    PreparedStake(st, s, height, f, i);
  }

  /** Together the served stakes are at most the shares' part of the tokens. */
  lemma {:induction false} StakesWithin(st: Stores, s: Distr, height: nat, f: Failures, e: Distr,
                                        failed: set<DelKey>, v: Addr, n: nat)
    requires Keyed(st) && Ready(ViewOf(st), s, height) && n <= |st.dels| && v in st.validators
    requires Resumed(Prep(ViewOf(st), s, height, f).book, e.book)
    ensures var k, val := ViewOf(st), st.validators[v];
      var all := if val.shares > 0 then val.shares else 1;
      ServedStakes(k, e, k.dels[..n], failed, v) * all <= SharesOf(st.dels[..n], v) * val.tokens * PRECISION
  {
    hide Ready, Prep, Keyed, Stakes, Worths, Resumed, PRECISION;
    if n > 0 {
      var k, val, d := ViewOf(st), st.validators[v], st.dels[n - 1].key;
      var all := if val.shares > 0 then val.shares else 1;
      StakesWithin(st, s, height, f, e, failed, v, n - 1);
      StakeWithin(st, s, height, f, e, failed, v, n - 1);
      assert k.dels[..n][..n - 1] == k.dels[..n - 1] && st.dels[..n][..n - 1] == st.dels[..n - 1];
      assert k.dels[n - 1] == d;
      var shares := if d.val == v then st.dels[n - 1].shares else 0;
      var stake := if Served(k, e, failed, d) && d.val == v then e.book.starting[d].stake else 0;
      StakesAdd(ServedStakes(k, e, k.dels[..n - 1], failed, v), stake, all, SharesOf(st.dels[..n - 1], v), shares,
                val.tokens);
    }
  }

  lemma StakesAdd(stakes: nat, stake: nat, all: nat, held: nat, shares: nat, tokens: nat)
    requires stakes * all <= held * tokens * PRECISION && stake * all <= shares * tokens * PRECISION
    ensures (stakes + stake) * all <= (held + shares) * tokens * PRECISION
  {
    assert (stakes + stake) * all == stakes * all + stake * all;
    assert (held + shares) * tokens * PRECISION == held * tokens * PRECISION + shares * tokens * PRECISION;
  }

  lemma WithinTokens(stakes: nat, held: nat, all: nat, tokens: nat)
    requires all > 0 && held <= all && stakes * all <= held * tokens * PRECISION
    ensures stakes <= tokens * PRECISION
  {
    assert (all - held) * (tokens * PRECISION) >= 0;
    assert held * tokens * PRECISION == held * (tokens * PRECISION);
    assert (tokens * PRECISION - stakes) * all >= 0;
  }

  /** A validator without tokens pays nobody. */
  lemma {:induction false} NothingAccrues(st: Stores, s: Distr, height: nat, f: Failures, e: Distr, h: nat,
                                          failed: set<DelKey>, v: Addr, n: nat)
    requires Keyed(st) && Ready(ViewOf(st), s, height) && Open(ViewOf(st), e, h) && h > 0 && n <= |st.dels|
    requires Resumed(Prep(ViewOf(st), s, height, f).book, e.book)
    requires v in st.validators && st.validators[v].tokens == 0
    ensures EntitledSum(ViewOf(st), e, ViewOf(st).dels[..n], h, failed, v) == 0
  {
    hide Ready, Prep, Keyed, Open, Entitled, Stakes, Worths;
    if n > 0 {
      var k := ViewOf(st);
      NothingAccrues(st, s, height, f, e, h, failed, v, n - 1);
      RestartedShare(st, s, height, f, e, h, n - 1);
      assert k.dels[..n][..n - 1] == k.dels[..n - 1] && k.dels[n - 1] == st.dels[n - 1].key;
    }
  }

  /** The claims for a validator are at most its running rewards. */
  lemma ClaimsWithinRewards(st: Stores, s: Distr, height: nat, f: Failures, e: Distr, h: nat,
                            failed: set<DelKey>, v: Addr)
    requires Keyed(st) && Ready(ViewOf(st), s, height) && Open(ViewOf(st), e, h) && h > 0
    requires Resumed(Prep(ViewOf(st), s, height, f).book, e.book)
    requires SharesCovered(st) && v in st.validators && v in e.book.current && e.book.current[v].rewards >= 0
    ensures EntitledSum(ViewOf(st), e, ViewOf(st).dels, h, failed, v)
            <= if st.validators[v].tokens == 0 then 0 else e.book.current[v].rewards
  {
    hide Ready, Prep, Keyed, Open, EntitledSum, ServedStakes, SharesOf, Backlog, Earning, Stakes, Worths, Growth;
    var k, val := ViewOf(st), st.validators[v];
    assert k.dels[..|st.dels|] == k.dels && st.dels[..|st.dels|] == st.dels;
    if val.tokens == 0 {
      NothingAccrues(st, s, height, f, e, h, failed, v, |st.dels|);
    } else {
      forall d | d in k.dels
        ensures Withdrawable(k, e, d) && Earning(k, e.book, d, h) && HasRecords(e.book, d) && Growth(e.book, d) == 0
      {
        AllResumed(k, s, height, f, e, h, d);
      }
      NoBacklog(k, e, k.dels, failed, v);
      StakesWithin(st, s, height, f, e, failed, v, |st.dels|);
      WithinTokens(ServedStakes(k, e, k.dels, failed, v), SharesOf(st.dels, v),
                   if val.shares > 0 then val.shares else 1, val.tokens);
      AtMostTheRewards(k, e, k.dels, h, failed, v);
    }
  }

  /**
   On the restarted chain nobody's first payout is cut: when no validator's delegations have more
   shares than it has, the claims fit in the running rewards, whatever calls fail.
  */
  lemma NobodyCutAfterRestart(st: Stores, s: Distr, height: nat, f: Failures, e: Distr, h: nat, failed: set<DelKey>)
    requires Keyed(st) && Ready(ViewOf(st), s, height) && Open(ViewOf(st), e, h) && h > 0 && SharesCovered(st)
    requires Resumed(Prep(ViewOf(st), s, height, f).book, e.book)
    ensures NobodyCut(ViewOf(st), e, h, failed)
    ensures forall v :: v in st.validators ==>
      && v in e.book.current
      && EntitledSum(ViewOf(st), e, ViewOf(st).dels, h, failed, v) <= e.book.current[v].rewards
  {
    hide Ready, Prep, Open, EntitledSum, Left, NobodyCut, Resumed, SharesCovered, Stakes, Worths;
    var k := ViewOf(st);
    forall v | v in k.order
      ensures v in e.book.current
      ensures EntitledSum(k, e, k.dels, h, failed, v) <= e.book.current[v].rewards
      ensures EntitledSum(k, e, k.dels, h, failed, v) <= Left(k, e, v)
    {
      RunningCovered(k, e, h, v);
      ClaimsWithinRewards(st, s, height, f, e, h, failed, v);
    }
    UncutIff(k, e, h, failed);
  }

  lemma RunningCovered(k: View, e: Distr, h: nat, v: Addr)
    requires Open(k, e, h) && v in k.order
    ensures v in e.book.current && e.book.current[v].rewards >= 0 && Left(k, e, v) >= 0
    ensures Tokens(k, v) > 0 ==> e.book.current[v].rewards <= Left(k, e, v)
  {
    hide RefsMatch, OnePointer, Monotone, Left;
    LeftIs(k, e, v);
  }
}
