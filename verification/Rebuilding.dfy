/**
 Erasing the history breaks the reference-count equation; reinitialising the validators and
 replaying the delegations restores it, whatever was in the book before.
*/
module Rebuilding {
  import opened Base
  import opened Sums
  import opened Distribution
  import opened Invariants
  import opened ZeroHeight

  ghost predicate Covers(vals: seq<Addr>, keys: set<Addr>) {
    forall v :: v in keys ==> v in vals
  }

  /** Only known validators have money or current rewards, only known delegations a starting info. */
  ghost predicate Known(k: View, s: Distr) {
    && Covers(k.order, s.money.outstanding.Keys)
    && Covers(k.order, s.money.commission.Keys)
    && Covers(k.order, s.book.current.Keys)
    && forall d :: d in s.book.starting ==> d in k.dels
  }

  // ----- the state the rebuild leads to -----

  /** Everything outstanding is donated; no validator is owed anything. */
  ghost function Donated(k: View, m: Money): Money {
    m.(pool := m.pool + Sum(m.outstanding),
       outstanding := map v | v in k.order :: 0,
       commission := map v | v in k.order :: 0)
  }

  ghost function BlankBook(k: View): Book {
    Book(map v | v in k.order :: RecKey(v, 0) := Historical(0, 1),
         map v | v in k.order :: Current(0, 1), map[], map[])
  }

  /** The replay on the book alone, for validators that earned nothing. */
  ghost function FreshBook(k: View, dels: seq<DelKey>): Book {
    if dels == [] then BlankBook(k)
    else
      var b, d := FreshBook(k, dels[..|dels| - 1]), dels[|dels| - 1];
      var p := Cur(b, d.val).period;
      if p == 0 then b else Point(EndPeriod(b, d.val, 0), d, StartingInfo(p, StakeOf(k, d), 0))
  }

  // ----- the fresh book is sound -----

  lemma BlankSound(k: View)
    ensures Sound(k, BlankBook(k))
  {
    var b := BlankBook(k);
    forall r
      ensures Refs(b, r) == Last(b, r) + Pointers(b, r) && Pointers(b, r) <= 1
    {
      assert Starts(b, r) == {} && SlashesAt(b, r) == {};
    }
  }

  lemma {:induction false} FreshSound(k: View, dels: seq<DelKey>)
    requires WellFormed(k) && NoDup(dels) && forall d :: d in dels ==> d in k.dels
    ensures Sound(k, FreshBook(k, dels))
    ensures forall d :: d in FreshBook(k, dels).starting <==> d in dels
    ensures forall v :: Cur(FreshBook(k, dels), v).rewards == 0
    ensures FreshBook(k, dels).slashes == map[]
  {
    hide RefsMatch, OnePointer, Monotone, Pointers, Shape;
    if dels == [] {
      BlankSound(k);
    } else {
      var init, d := dels[..|dels| - 1], dels[|dels| - 1];
      FreshSound(k, init);
      FreshStep(k, init, d);
      assert dels == init + [d];
    }
  }

  lemma FreshStep(k: View, init: seq<DelKey>, d: DelKey)
    requires WellFormed(k) && d in k.dels
    requires Sound(k, FreshBook(k, init)) && d !in FreshBook(k, init).starting
    ensures var b := FreshBook(k, init);
      && Cur(b, d.val).period >= 1 && Refs(b, LastEnded(b, d.val)) >= 1
      && Sound(k, EndPeriod(b, d.val, 0))
      && Refs(EndPeriod(b, d.val, 0), RecKey(d.val, Cur(b, d.val).period)) == 1
      && FreshBook(k, init + [d]) ==
         Point(EndPeriod(b, d.val, 0), d, StartingInfo(Cur(b, d.val).period, StakeOf(k, d), 0))
      && Sound(k, FreshBook(k, init + [d]))
      && (forall v :: Cur(FreshBook(k, init + [d]), v).rewards == if v == d.val then 0 else Cur(b, v).rewards)
  {
    hide RefsMatch, OnePointer, Monotone, Pointers, EndPeriod, Point;
    var b, dels := FreshBook(k, init), init + [d];
    assert dels[..|dels| - 1] == init;
    LastIsRecorded(k, b, d.val);
    EndPeriodKeeps(k, b, d.val, 0);
    EndPeriodIs(b, d.val, 0);
    PointKeeps(k, EndPeriod(b, d.val, 0), d, StartingInfo(Cur(b, d.val).period, StakeOf(k, d), 0));
    PointIs(EndPeriod(b, d.val, 0), d, StartingInfo(Cur(b, d.val).period, StakeOf(k, d), 0));
  }

  lemma EndPeriodIs(b: Book, v: Addr, gain: int)
    requires Cur(b, v).period >= 1
    ensures var c := EndPeriod(b, v, gain);
      && c.starting == b.starting && c.slashes == b.slashes
      && LastEnded(c, v) == RecKey(v, Cur(b, v).period)
      && (forall u :: Cur(c, u) == if u == v then Current(0, Cur(b, v).period + 1) else Cur(b, u))
  {
  }

  lemma PointIs(b: Book, d: DelKey, info: StartingInfo)
    ensures Point(b, d, info).slashes == b.slashes && Point(b, d, info).starting == b.starting[d := info]
    ensures forall u :: Cur(Point(b, d, info), u) == Cur(b, u)
  {
  }

  // ----- the export's rebuild arrives there -----

  ghost function ZeroAt(vals: seq<Addr>): map<Addr, int> { map v | v in vals :: 0 }
  ghost function FirstRecords(vals: seq<Addr>): map<RecKey, Historical> {
    map v | v in vals :: RecKey(v, 0) := Historical(0, 1)
  }
  ghost function FirstPeriods(vals: seq<Addr>): map<Addr, Current> { map v | v in vals :: Current(0, 1) }

  lemma ZeroAtSnoc(m: map<Addr, int>, init: seq<Addr>, v: Addr)
    ensures (m + ZeroAt(init))[v := 0] == m + ZeroAt(init + [v])
  {
  }

  lemma FirstRecordsSnoc(m: map<RecKey, Historical>, init: seq<Addr>, v: Addr)
    ensures (m + FirstRecords(init))[RecKey(v, 0) := Historical(0, 1)] == m + FirstRecords(init + [v])
  {
    var l, r := (m + FirstRecords(init))[RecKey(v, 0) := Historical(0, 1)], m + FirstRecords(init + [v]);
    assert forall u :: u in init ==> RecKey(u, 0) in FirstRecords(init);
    assert forall u :: u in init + [v] ==> RecKey(u, 0) in FirstRecords(init + [v]);
    assert l.Keys == r.Keys;
  }

  lemma FirstPeriodsSnoc(m: map<Addr, Current>, init: seq<Addr>, v: Addr)
    ensures (m + FirstPeriods(init))[v := Current(0, 1)] == m + FirstPeriods(init + [v])
  {
  }

  lemma {:induction false} ReinitAllMoney(s: Distr, vals: seq<Addr>)
    ensures var t := ReinitAll(s, vals);
      && t.panicked == s.panicked
      && t.money == s.money.(pool := s.money.pool + Sum(s.money.outstanding) - Sum(t.money.outstanding),
                             outstanding := s.money.outstanding + ZeroAt(vals),
                             commission := s.money.commission + ZeroAt(vals))
  {
    if vals == [] {
      assert s.money.outstanding + ZeroAt(vals) == s.money.outstanding;
      assert s.money.commission + ZeroAt(vals) == s.money.commission;
    } else {
      var init, v := vals[..|vals| - 1], vals[|vals| - 1];
      assert vals == init + [v];
      ReinitAllMoney(s, init);
      SumUpdate(ReinitAll(s, init).money.outstanding, v, 0);
      ZeroAtSnoc(s.money.outstanding, init, v);
      ZeroAtSnoc(s.money.commission, init, v);
    }
  }

  lemma {:induction false} ReinitAllBook(s: Distr, vals: seq<Addr>)
    ensures ReinitAll(s, vals).book == s.book.(history := s.book.history + FirstRecords(vals),
                                               current := s.book.current + FirstPeriods(vals))
  {
    if vals == [] {
      assert s.book.history + FirstRecords(vals) == s.book.history;
      assert s.book.current + FirstPeriods(vals) == s.book.current;
    } else {
      var init, v := vals[..|vals| - 1], vals[|vals| - 1];
      assert vals == init + [v];
      ReinitAllBook(s, init);
      FirstRecordsSnoc(s.book.history, init, v);
      FirstPeriodsSnoc(s.book.current, init, v);
    }
  }

  lemma ZeroAtCovers(k: View, m: map<Addr, int>)
    requires Covers(k.order, m.Keys)
    ensures m + ZeroAt(k.order) == ZeroAt(k.order)
    ensures Sum(ZeroAt(k.order)) == 0
  {
    SumZero(ZeroAt(k.order));
  }

  /** After the reinitialisation only stale starting infos distinguish the book from the blank one. */
  lemma ReinitialisedIs(k: View, s: Distr)
    requires Known(k, s) && !s.panicked
    ensures ReinitAll(Erase(s), k.order) ==
            Distr(Donated(k, s.money), BlankBook(k).(starting := s.book.starting), false)
  {
    hide ReinitAll, Sum;
    var t := Erase(s);
    ReinitAllMoney(t, k.order);
    ReinitAllBook(t, k.order);
    ZeroAtCovers(k, s.money.outstanding);
    ZeroAtCovers(k, s.money.commission);
    assert t.book.current + FirstPeriods(k.order) == FirstPeriods(k.order);
    assert t.book.history + FirstRecords(k.order) == FirstRecords(k.order);
  }

  /** The fresh book over starting infos left from before: the replay overwrites them one by one. */
  ghost function Over(stale: map<DelKey, StartingInfo>, b: Book): Book {
    b.(starting := stale + b.starting)
  }

  lemma IncrementOver(k: View, m: Money, stale: map<DelKey, StartingInfo>, b: Book, v: Addr)
    requires Cur(b, v).period >= 1 && Cur(b, v).rewards == 0 && Refs(b, LastEnded(b, v)) >= 1
    requires v in k.order && m.outstanding == ZeroAt(k.order)
    ensures IncrementPeriod(k, Distr(m, Over(stale, b), false), v) ==
            Distr(m, Over(stale, EndPeriod(b, v, 0)), false)
  {
    assert PoolRewards(m, v, 0).outstanding == m.outstanding;
  }

  lemma StartOver(k: View, m: Money, stale: map<DelKey, StartingInfo>, b: Book, d: DelKey)
    requires Cur(b, d.val).period >= 1 && Refs(b, LastEnded(b, d.val)) == 1
    ensures StartDelegation(k, Distr(m, Over(stale, b), false), d, 0) ==
            Distr(m, Over(stale, Point(b, d, StartingInfo(Cur(b, d.val).period - 1, StakeOf(k, d), 0))), false)
  {
    var info := StartingInfo(Cur(b, d.val).period - 1, StakeOf(k, d), 0);
    assert (stale + b.starting)[d := info] == stale + b.starting[d := info];
  }

  lemma ReplayStep(k: View, m: Money, stale: map<DelKey, StartingInfo>, init: seq<DelKey>, d: DelKey)
    requires WellFormed(k) && d in k.dels && d !in init && NoDup(init) && forall e :: e in init ==> e in k.dels
    requires m.outstanding == ZeroAt(k.order)
    ensures var s := Distr(m, Over(stale, FreshBook(k, init)), false);
      StartDelegation(k, IncrementPeriod(k, s, d.val), d, 0) ==
      Distr(m, Over(stale, FreshBook(k, init + [d])), false)
  {
    hide Sound, StartDelegation, IncrementPeriod, FreshBook, Over, Point;
    FreshSound(k, init);
    FreshStep(k, init, d);
    var b := FreshBook(k, init);
    IncrementOver(k, m, stale, b, d.val);
    StartOver(k, m, stale, EndPeriod(b, d.val, 0), d);
  }

  lemma {:induction false} ReplayIs(k: View, m: Money, stale: map<DelKey, StartingInfo>, dels: seq<DelKey>)
    requires WellFormed(k) && NoDup(dels) && forall d :: d in dels ==> d in k.dels
    requires m.outstanding == ZeroAt(k.order)
    ensures Replay(k, Distr(m, Over(stale, BlankBook(k)), false), dels) ==
            Distr(m, Over(stale, FreshBook(k, dels)), false)
  {
    hide StartDelegation, IncrementPeriod, BlankBook, Over;
    if dels != [] {
      var init, d := dels[..|dels| - 1], dels[|dels| - 1];
      assert dels == init + [d];
      ReplayIs(k, m, stale, init);
      ReplayStep(k, m, stale, init, d);
    }
  }

  lemma StaleCovered(stale: map<DelKey, StartingInfo>, renewed: map<DelKey, StartingInfo>)
    requires forall d :: d in stale ==> d in renewed
    ensures stale + renewed == renewed
  {
  }

  /** Where any part of the replay leads from a reinitialised state. */
  lemma ReplayedIs(k: View, s: Distr, dels: seq<DelKey>)
    requires WellFormed(k) && Known(k, s) && !s.panicked
    requires NoDup(dels) && forall d :: d in dels ==> d in k.dels
    ensures Replay(k, ReinitAll(Erase(s), k.order), dels) ==
            Distr(Donated(k, s.money), Over(s.book.starting, FreshBook(k, dels)), false)
  {
    hide Sound, ReinitAll, Replay, FreshBook, Known, WellFormed;
    ReinitialisedIs(k, s);
    ReplayIs(k, Donated(k, s.money), s.book.starting, dels);
    BlankHasNoStarts(k, s.book.starting);
  }

  lemma BlankHasNoStarts(k: View, stale: map<DelKey, StartingInfo>)
    ensures BlankBook(k).(starting := stale) == Over(stale, BlankBook(k))
  {
    assert stale + BlankBook(k).starting == stale;
  }

  /**
   The rebuilt state depends on the old one only through its money: the book is a function of
   the staking state alone, and the community pool receives everything that was outstanding.
  */
  lemma RebuildIs(k: View, s: Distr)
    requires WellFormed(k) && Known(k, s) && !s.panicked
    ensures Rebuild(k, s) == Distr(Donated(k, s.money), FreshBook(k, k.dels), false)
  {
    hide Sound, ReinitAll, Replay, FreshBook;
    ReplayedIs(k, s, k.dels);
    FreshSound(k, k.dels);
    StaleCovered(s.book.starting, FreshBook(k, k.dels).starting);
  }
}
