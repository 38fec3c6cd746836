/**
 What a delegation accrues over any slash events, against exact arithmetic: the keeper's truncated
 amounts never exceed the exact ones and fall short of them by rounding only.
*/
module Slashing {
  import opened Base
  import opened Distribution
  import opened Invariants
  import opened Payouts
  import opened Shares

  const UNITS: real := 1_000_000_000_000_000_000.0

  /** A recorded ratio. */
  ghost function Level(b: Book, v: Addr, period: nat): real {
    if RecKey(v, period) in b.history then b.history[RecKey(v, period)].ratio as real else 0.0
  }

  /**
   Rewards without rounding: up to each slash event of heights lo..hi in a later period than the one
   before, the growth of the ratio on the stake; then the stake loses the event's fraction.
  */
  ghost function Exact(b: Book, v: Addr, events: seq<SlashEvent>, lo: nat, hi: nat,
                       from: nat, end: real, stake: real): real
  {
    if events == [] then (end - Level(b, v, from)) * stake / UNITS
    else
      var e := events[0];
      if lo <= e.height <= hi && from < e.period then
        (Level(b, v, e.period) - Level(b, v, from)) * stake / UNITS +
        Exact(b, v, events[1..], lo, hi, e.period, end, stake * (1.0 - e.fraction as real / UNITS))
      else Exact(b, v, events[1..], lo, hi, from, end, stake)
  }

  /** How many of the events shrink the stake. */
  ghost function Hits(events: seq<SlashEvent>, lo: nat, hi: nat, from: nat): nat {
    if events == [] then 0
    else if lo <= events[0].height <= hi && from < events[0].period
    then 1 + Hits(events[1..], lo, hi, events[0].period)
    else Hits(events[1..], lo, hi, from)
  }

  // ----- rounding, step by step -----

  lemma RealProduct(a: int, b: int)
    ensures (a * b) as real == a as real * b as real
  {
  }

  lemma RealFloor(a: int)
    ensures 0.0 <= a as real / UNITS - (a / PRECISION) as real < 1.0
  {
    Rest(a, PRECISION);
  }

  /** A real product is monotone in a factor. */
  lemma Factor(d: real, x: real, y: real)
    requires 0.0 <= d && x <= y
    ensures d * x <= d * y
  {
  }

  lemma StretchGap(d: int, stake: int, x: real, m: real)
    requires d >= 0 && stake as real <= x <= stake as real + m
    ensures 0.0 <= d as real * x / UNITS - (d * stake / PRECISION) as real < 1.0 + d as real * m / UNITS
  {
    RealProduct(d, stake);
    RealFloor(d * stake);
    Factor(d as real, stake as real, x);
    Factor(d as real, x, stake as real + m);
    assert d as real * (stake as real + m) == d as real * stake as real + d as real * m;
  }

  lemma KeptPart(stake: int, fraction: int)
    ensures (stake * (PRECISION - fraction)) as real / UNITS == stake as real * (1.0 - fraction as real / UNITS)
  {
    var s, g := stake as real, fraction as real;
    RealProduct(stake, PRECISION - fraction);
    assert (PRECISION - fraction) as real == UNITS - g;
    assert s * (UNITS - g) == s * UNITS - s * g;
    assert s * (1.0 - g / UNITS) == s - s * (g / UNITS);
    assert s * (g / UNITS) == s * g / UNITS;
  }

  lemma Shrinks(u: real, m: real, keep: real)
    requires 0.0 <= u <= m && 0.0 <= keep <= 1.0
    ensures 0.0 <= u * keep <= m
  {
    assert u * (1.0 - keep) >= 0.0;
  }

  lemma KeptGap(s: real, keep: real, x: real, m: real, q: real)
    requires 0.0 <= s && 0.0 <= keep <= 1.0 && s <= x <= s + m
    requires 0.0 <= s * keep - q < 1.0
    ensures 0.0 <= x * keep - q <= 1.0 + m && x * keep <= x
  {
    assert x * keep - s * keep == (x - s) * keep;
    Shrinks(x - s, m, keep);
    Shrinks(x, x, keep);
  }

  lemma SlashGap(stake: int, fraction: int, x: real, m: real)
    requires 0 <= stake && 0 <= fraction <= PRECISION && stake as real <= x <= stake as real + m
    ensures var left := x * (1.0 - fraction as real / UNITS);
      && 0.0 <= left - (stake * (PRECISION - fraction) / PRECISION) as real <= 1.0 + m
      && left <= x
  {
    var q := (stake * (PRECISION - fraction) / PRECISION) as real;
    KeptPart(stake, fraction);
    RealFloor(stake * (PRECISION - fraction));
    KeptGap(stake as real, 1.0 - fraction as real / UNITS, x, m, q);
  }

  lemma HigherEnd(d: real, x: real, m: real, up: real, q: real)
    requires 0.0 <= d && 0.0 <= x && 0.0 <= m && 0.0 <= up <= 1.0
    requires 0.0 <= d * x / UNITS - q < 1.0 + d * (m + 3.0) / UNITS
    ensures 0.0 <= (d + up) * x / UNITS - q < 1.0 + ((d + up) * (m + 3.0) + x) / UNITS
  {
    var a, b, c, e := d * x, up * x, d * (m + 3.0), up * (m + 3.0);
    assert (d + up) * x == a + b && (d + up) * (m + 3.0) == c + e;
    assert 0.0 <= b <= x by { Shrinks(x, x, up); }
    assert 0.0 <= e;
  }

  /** The last stretch, where the stake is at most m + 3 too low and the ratio may end up to 1 higher. */
  lemma LastGap(d: int, stake: int, x: real, m: real, up: real)
    requires d >= 0 && stake >= 0 && 0.0 <= m && stake as real <= x <= stake as real + m + 3.0 && 0.0 <= up <= 1.0
    ensures 0.0 <= (d as real + up) * x / UNITS - (d * stake / PRECISION) as real
                < 1.0 + ((d as real + up) * (m + 3.0) + x) / UNITS
  {
    var q := (d * stake / PRECISION) as real;
    StretchGap(d, stake, x, m + 3.0);
    HigherEnd(d as real, x, m, up, q);
  }

  /** The bound for a stretch and for what follows it add up to the bound for both. */
  lemma GapsAdd(d: real, rest: real, n: nat, m: real, x: real, y: real)
    requires 0.0 <= d && 0.0 <= rest && 0.0 <= m && y <= x
    ensures 1.0 + d * m / UNITS + Loss(n, m + 1.0, rest, y) <= Loss(n + 1, m, d + rest, x)
  {
    var c := n as real + m + 4.0;
    Factor(d, m, c);
    assert c * (d + rest) == c * d + c * rest;
  }

  /** The bound on what rounding takes, for n slashes and a ratio that grows by `growth`. */
  ghost function Loss(n: nat, m: real, growth: real, x: real): real {
    n as real + 1.0 + ((n as real + m + 3.0) * growth + x) / UNITS
  }

  lemma {:induction false} AccruedIsExact(b: Book, v: Addr, events: seq<SlashEvent>, lo: nat, hi: nat, from: nat,
                                          to: nat, stake: int, worth: nat, end: real, x: real, m: real)
    requires Monotone(b) && from <= to && 0 <= stake && 0.0 <= m && stake as real <= x <= stake as real + m
    requires forall e :: e in events ==>
      RecKey(v, e.period) in b.history && e.period <= to && 0 <= e.fraction <= PRECISION
    requires RecKey(v, from) in b.history && RecKey(v, to) in b.history
    requires FinalStake(events, lo, hi, from, stake) <= worth + 3
    requires Level(b, v, to) <= end <= Level(b, v, to) + 1.0
    ensures var e := Accrued(b, v, events, lo, hi, from, to, stake, worth);
      && e.Some?
      && 0.0 <= Exact(b, v, events, lo, hi, from, end, x) - e.value as real
             < Loss(Hits(events, lo, hi, from), m, end - Level(b, v, from), x)
    decreases events
  {
    hide Loss, LastStretch, Between, Level, Slashed, Accrued, Exact, Hits, FinalStake, Monotone;
    Unfolded(b, v, events, lo, hi, from, to, stake, worth, end, x);
    if events == [] {
      LastIsExact(b, v, from, to, stake, worth, end, x, m);
    } else {
      var e := events[0];
      assert e in events;
      if lo <= e.height <= hi && from < e.period {
        var left := x * (1.0 - e.fraction as real / UNITS);
        SlashedGap(stake, e, x, m);
        LevelsGrow(b, v, e.period, to);
        AccruedIsExact(b, v, events[1..], lo, hi, e.period, to, Slashed(stake, e), worth, end, left, m + 1.0);
        SlashIsExact(b, v, events, lo, hi, from, to, stake, worth, end, x, m, left);
      } else {
        AccruedIsExact(b, v, events[1..], lo, hi, from, to, stake, worth, end, x, m);
      }
    }
  }

  /** What the definitions say of an empty list, of an event that does not count, and of one that does. */
  lemma Unfolded(b: Book, v: Addr, events: seq<SlashEvent>, lo: nat, hi: nat, from: nat, to: nat,
                 stake: int, worth: nat, end: real, x: real)
    ensures events == [] ==>
      && Accrued(b, v, events, lo, hi, from, to, stake, worth) == LastStretch(b, v, from, to, stake, worth)
      && Exact(b, v, events, lo, hi, from, end, x) == (end - Level(b, v, from)) * x / UNITS
      && Hits(events, lo, hi, from) == 0 && FinalStake(events, lo, hi, from, stake) == stake
    ensures events != [] && !(lo <= events[0].height <= hi && from < events[0].period) ==>
      && Accrued(b, v, events, lo, hi, from, to, stake, worth) ==
         Accrued(b, v, events[1..], lo, hi, from, to, stake, worth)
      && Exact(b, v, events, lo, hi, from, end, x) == Exact(b, v, events[1..], lo, hi, from, end, x)
      && Hits(events, lo, hi, from) == Hits(events[1..], lo, hi, from)
      && FinalStake(events, lo, hi, from, stake) == FinalStake(events[1..], lo, hi, from, stake)
    ensures events != [] && lo <= events[0].height <= hi && from < events[0].period ==>
      FinalStake(events, lo, hi, from, stake) ==
      FinalStake(events[1..], lo, hi, events[0].period, Slashed(stake, events[0]))
  {
    hide LastStretch, Between, Level, Slashed;
  }

  lemma SlashedGap(stake: int, e: SlashEvent, x: real, m: real)
    requires 0 <= stake && 0 <= e.fraction <= PRECISION && stake as real <= x <= stake as real + m
    ensures var left := x * (1.0 - e.fraction as real / UNITS);
      && 0 <= Slashed(stake, e)
      && Slashed(stake, e) as real <= left <= Slashed(stake, e) as real + m + 1.0
      && left <= x
  {
    SlashGap(stake, e.fraction, x, m);
    ProductNonNegative(stake, PRECISION - e.fraction);
  }

  lemma LastIsExact(b: Book, v: Addr, from: nat, to: nat, stake: int, worth: nat, end: real, x: real, m: real)
    requires Monotone(b) && from <= to && 0 <= stake && 0.0 <= m && stake as real <= x <= stake as real + m
    requires RecKey(v, from) in b.history && RecKey(v, to) in b.history && stake <= worth + 3
    requires Level(b, v, to) <= end <= Level(b, v, to) + 1.0
    ensures var e := LastStretch(b, v, from, to, stake, worth);
      && e.Some?
      && 0.0 <= (end - Level(b, v, from)) * x / UNITS - e.value as real < Loss(0, m, end - Level(b, v, from), x)
  {
    hide Level, Ratio, Monotone;
    var d := Ratio(b, RecKey(v, to)) - Ratio(b, RecKey(v, from));
    LevelsGrow(b, v, from, to);
    LastGap(d, Min(stake, worth), x, m, end - Level(b, v, to));
    assert d as real + (end - Level(b, v, to)) == end - Level(b, v, from);
  }

  /** One counted slash, when the rest after it is known to be exact up to rounding. */
  lemma SlashIsExact(b: Book, v: Addr, events: seq<SlashEvent>, lo: nat, hi: nat, from: nat, to: nat,
                     stake: int, worth: nat, end: real, x: real, m: real, left: real)
    requires events != [] && lo <= events[0].height <= hi && from < events[0].period
    requires Monotone(b) && 0 <= stake && 0.0 <= m && stake as real <= x <= stake as real + m
    requires RecKey(v, from) in b.history && RecKey(v, events[0].period) in b.history
    requires Level(b, v, events[0].period) <= end
    requires left == x * (1.0 - events[0].fraction as real / UNITS) <= x
    requires var e := events[0];
      var rest := Accrued(b, v, events[1..], lo, hi, e.period, to, Slashed(stake, e), worth);
      && rest.Some?
      && 0.0 <= Exact(b, v, events[1..], lo, hi, e.period, end, left) - rest.value as real
             < Loss(Hits(events[1..], lo, hi, e.period), m + 1.0, end - Level(b, v, e.period), left)
    ensures var e := Accrued(b, v, events, lo, hi, from, to, stake, worth);
      && e.Some?
      && 0.0 <= Exact(b, v, events, lo, hi, from, end, x) - e.value as real
             < Loss(Hits(events, lo, hi, from), m, end - Level(b, v, from), x)
  {
    hide Accrued, Exact, Hits, Slashed, Loss, Level, Ratio, Monotone;
    var e := events[0];
    var d := Ratio(b, RecKey(v, e.period)) - Ratio(b, RecKey(v, from));
    var growth := end - Level(b, v, e.period);
    LevelsGrow(b, v, from, e.period);
    StretchGap(d, stake, x, m);
    AccruedHit(b, v, events, lo, hi, from, to, stake, worth);
    ExactHit(b, v, events, lo, hi, from, end, x, left);
    GapsAdd(d as real, growth, Hits(events[1..], lo, hi, e.period), m, x, left);
    assert d as real + growth == end - Level(b, v, from);
  }

  lemma LevelsGrow(b: Book, v: Addr, from: nat, to: nat)
    requires Monotone(b) && from <= to && RecKey(v, from) in b.history && RecKey(v, to) in b.history
    ensures Level(b, v, to) - Level(b, v, from) == (Ratio(b, RecKey(v, to)) - Ratio(b, RecKey(v, from))) as real
    ensures Ratio(b, RecKey(v, from)) <= Ratio(b, RecKey(v, to))
  {
  }

  lemma AccruedHit(b: Book, v: Addr, events: seq<SlashEvent>, lo: nat, hi: nat, from: nat, to: nat,
                   stake: int, worth: nat)
    requires events != [] && lo <= events[0].height <= hi && from < events[0].period && 0 <= stake
    requires Ratio(b, RecKey(v, from)) <= Ratio(b, RecKey(v, events[0].period))
    requires Accrued(b, v, events[1..], lo, hi, events[0].period, to, Slashed(stake, events[0]), worth).Some?
    ensures var e := events[0];
      Accrued(b, v, events, lo, hi, from, to, stake, worth) ==
      Some((Ratio(b, RecKey(v, e.period)) - Ratio(b, RecKey(v, from))) * stake / PRECISION +
           Accrued(b, v, events[1..], lo, hi, e.period, to, Slashed(stake, e), worth).value)
  {
    hide Slashed, Ratio;
  }

  lemma ExactHit(b: Book, v: Addr, events: seq<SlashEvent>, lo: nat, hi: nat, from: nat, end: real, x: real,
                 left: real)
    requires events != [] && lo <= events[0].height <= hi && from < events[0].period
    requires left == x * (1.0 - events[0].fraction as real / UNITS)
    ensures var e := events[0];
      Exact(b, v, events, lo, hi, from, end, x) ==
      (Level(b, v, e.period) - Level(b, v, from)) * x / UNITS + Exact(b, v, events[1..], lo, hi, e.period, end, left)
    ensures Hits(events, lo, hi, from) == 1 + Hits(events[1..], lo, hi, events[0].period)
  {
    hide Level;
  }

  // ----- what a delegation has accrued -----

  lemma LessReal(x: real, y: real, b: real)
    requires b > 0.0 && x * b <= y * b
    ensures x <= y
  {
    assert (x - y) * b <= 0.0;
  }

  lemma DivideReal(a: real, b: real)
    requires b > 0.0
    ensures a / b * b == a
  {
  }

  lemma QuotientReal(a: int, b: nat)
    requires b > 0 && 0 <= a
    ensures (a / b) as real <= a as real / b as real <= (a / b) as real + 1.0
  {
    var r := a / b;
    Rest(a, b);
    RealProduct(r, b);
    RealProduct(r + 1, b);
    assert r * b <= a < (r + 1) * b;
    DivideReal(a as real, b as real);
    LessReal(r as real, a as real / b as real, b as real);
    LessReal(a as real / b as real, (r + 1) as real, b as real);
  }

  /** The ratio at the end of the running period, without rounding. */
  ghost function RunningEnd(k: View, b: Book, v: Addr): real
    requires v in b.current && b.current[v].period >= 1
  {
    Level(b, v, b.current[v].period - 1) +
    if v in k.tokens && k.tokens[v] > 0 then b.current[v].rewards as real / k.tokens[v] as real else 0.0
  }

  lemma {:induction false} ExactSame(b: Book, c: Book, v: Addr, events: seq<SlashEvent>, lo: nat, hi: nat,
                                     from: nat, end: real, stake: real)
    requires Level(b, v, from) == Level(c, v, from)
    requires forall e :: e in events ==> Level(b, v, e.period) == Level(c, v, e.period)
    ensures Exact(b, v, events, lo, hi, from, end, stake) == Exact(c, v, events, lo, hi, from, end, stake)
    decreases events
  {
    hide Level;
    if events != [] {
      var e := events[0];
      assert e in events;
      if lo <= e.height <= hi && from < e.period {
        var left := stake * (1.0 - e.fraction as real / UNITS);
        ExactSame(b, c, v, events[1..], lo, hi, e.period, end, left);
        ExactHit(b, v, events, lo, hi, from, end, stake, left);
        ExactHit(c, v, events, lo, hi, from, end, stake, left);
      } else {
        ExactSame(b, c, v, events[1..], lo, hi, from, end, stake);
      }
    }
  }

  /** Between heights in the wrong order no event counts. */
  lemma {:induction false} NothingBetween(b: Book, v: Addr, events: seq<SlashEvent>, lo: nat, hi: nat,
                                          from: nat, end: real, stake: real)
    requires hi < lo
    ensures Exact(b, v, events, lo, hi, from, end, stake) == Exact(b, v, [], lo, hi, from, end, stake)
    ensures Hits(events, lo, hi, from) == 0
    decreases events
  {
    hide Level;
    if events != [] {
      NothingBetween(b, v, events[1..], lo, hi, from, end, stake);
    }
  }

  /** All slash events of d's validator. */
  function EventsOf(b: Book, d: DelKey): seq<SlashEvent> { if d.val in b.slashes then b.slashes[d.val] else [] }

  /** The rewards on a sound book whose period has ended, against the exact ones with any close end. */
  lemma RewardsAreExact(k: View, c: Book, d: DelKey, height: nat, end: real)
    requires WellFormed(k) && Sound(k, c) && Fits(k, c, height) && d in c.starting
    requires c.starting[d].height != height && Cur(c, d.val).period >= 1
    requires var last := Level(c, d.val, Cur(c, d.val).period - 1); last <= end <= last + 1.0
    ensures var info, e := c.starting[d], RewardsOf(k, c, d, height);
      && e.Some?
      && 0.0 <= Exact(c, d.val, EventsOf(c, d), info.height, height, info.period, end, info.stake as real)
                - e.value as real
             < Loss(Hits(EventsOf(c, d), info.height, height, info.period), 0.0,
                    end - Level(c, d.val, info.period), info.stake as real)
  {
    hide RefsMatch, OnePointer, Monotone, Accrued, Exact, Hits, Loss, Level, FinalStake, Fits;
    SoundHasRecords(k, c, d);
    EventsRecorded(k, c, d, height);
    var info, events := c.starting[d], EventsFor(c, d, height);
    FitsAt(k, c, d, height);
    AccruedIsExact(c, d.val, events, info.height, height, info.period, Cur(c, d.val).period - 1, info.stake,
                   WorthOf(k, d), end, info.stake as real, 0.0);
    if height < info.height {
      NothingBetween(c, d.val, EventsOf(c, d), info.height, height, info.period, end, info.stake as real);
      NothingBetween(c, d.val, [], info.height, height, info.period, end, info.stake as real);
    }
  }

  lemma FitsAt(k: View, c: Book, d: DelKey, height: nat)
    requires Fits(k, c, height) && d in c.starting && c.starting[d].height != height
    ensures var info := c.starting[d];
      FinalStake(EventsFor(c, d, height), info.height, height, info.period, info.stake) <= WorthOf(k, d) + 3
  {
    hide FinalStake;
    assert StakeFits(k, c, d, height);
  }

  lemma EventsRecorded(k: View, c: Book, d: DelKey, height: nat)
    requires WellFormed(k) && Sound(k, c) && d in c.starting
    ensures forall e :: e in EventsOf(c, d) ==>
      RecKey(d.val, e.period) in c.history && e.period < Cur(c, d.val).period && 0 <= e.fraction <= PRECISION
  {
    hide RefsMatch, OnePointer;
    RecordsOf(k, c, d);
  }

  /** Ending the running period keeps the older levels, and ends within 1 of the exact level. */
  lemma LevelsEnded(k: View, b: Book, d: DelKey, gain: int)
    requires WellFormed(k) && Sound(k, b) && d in b.starting && Cur(b, d.val).rewards >= 0
    requires gain == PerToken(Cur(b, d.val).rewards, Tokens(k, d.val)) && Sound(k, EndPeriod(b, d.val, gain))
    ensures HasRecords(b, d)
    ensures var c, end := EndPeriod(b, d.val, gain), RunningEnd(k, b, d.val);
      && Level(c, d.val, b.starting[d].period) == Level(b, d.val, b.starting[d].period)
      && (forall e :: e in EventsOf(b, d) ==> Level(c, d.val, e.period) == Level(b, d.val, e.period))
      && Level(c, d.val, Cur(b, d.val).period) <= end <= Level(c, d.val, Cur(b, d.val).period) + 1.0
  {
    hide RefsMatch, OnePointer, Monotone, EndPeriod;
    var c := EndPeriod(b, d.val, gain);
    SoundHasRecords(k, b, d);
    EndPeriodRatios(b, d.val, gain);
    EndPeriodFrame(b, d.val, gain);
    SoundHasRecords(k, c, d);
    EventsRecorded(k, b, d, 0);
    EventsRecorded(k, c, d, 0);
    if Tokens(k, d.val) > 0 {
      QuotientReal(Cur(b, d.val).rewards, Tokens(k, d.val));
    }
  }

  /**
   What a delegation has accrued at a height falls short of the exact amount, over all the slash
   events since it started and up to the end of the running period, by rounding only.
  */
  lemma AccrualIsExact(k: View, s: Distr, d: DelKey, height: nat)
    requires WellFormed(k) && Inv(k, s) && Fits(k, s.book, height) && Withdrawable(k, s, d)
    requires s.book.starting[d].height != height
    ensures HasRecords(s.book, d)
    ensures var info, events, end := s.book.starting[d], EventsOf(s.book, d), RunningEnd(k, s.book, d.val);
      var n, stake := Hits(events, info.height, height, info.period), info.stake as real;
      var growth := end - Level(s.book, d.val, info.period);
      0.0 <= Exact(s.book, d.val, events, info.height, height, info.period, end, stake)
             - Entitled(k, s, d, height) as real
          < n as real + 1.0 + ((n as real + 3.0) * growth + stake) / UNITS
  {
    hide Sound, IncrementPeriod, RewardsOf, Exact, Hits, Level, EndPeriod, Fits, PerToken, RunningEnd;
    var gain := PerToken(Cur(s.book, d.val).rewards, Tokens(k, d.val));
    SoundHasRecords(k, s.book, d);
    var c, end, info := EndPeriod(s.book, d.val, gain), RunningEnd(k, s.book, d.val), s.book.starting[d];
    IncrementIs(k, s, d.val);
    IncrementKeeps(k, s, d.val);
    LevelsEnded(k, s.book, d, gain);
    EndPeriodFrame(s.book, d.val, gain);
    FitsSame(k, s.book, c, height);
    RewardsAreExact(k, c, d, height, end);
    ExactSame(s.book, c, d.val, EventsOf(s.book, d), info.height, height, info.period, end, info.stake as real);
  }

  /** With one slash, of fraction f, what is earned after it is earned by the stake less that fraction. */
  lemma OneSlash(k: View, s: Distr, d: DelKey, height: nat, e: SlashEvent)
    requires WellFormed(k) && Inv(k, s) && Fits(k, s.book, height) && Withdrawable(k, s, d)
    requires s.book.starting[d].height <= e.height <= height != s.book.starting[d].height
    requires EventsOf(s.book, d) == [e] && s.book.starting[d].period < e.period
    ensures HasRecords(s.book, d)
    ensures var info, end := s.book.starting[d], RunningEnd(k, s.book, d.val);
      var stake, keep := info.stake as real, 1.0 - e.fraction as real / UNITS;
      var start, slash := Level(s.book, d.val, info.period), Level(s.book, d.val, e.period);
      0.0 <= (slash - start) * stake / UNITS + (end - slash) * (stake * keep) / UNITS
             - Entitled(k, s, d, height) as real
          < 2.0 + (4.0 * (end - start) + stake) / UNITS
  {
    hide Sound, Fits, Level, RunningEnd, Entitled, Covered;
    AccrualIsExact(k, s, d, height);
    var info, end := s.book.starting[d], RunningEnd(k, s.book, d.val);
    var left := info.stake as real * (1.0 - e.fraction as real / UNITS);
    ExactHit(s.book, d.val, [e], info.height, height, info.period, end, info.stake as real, left);
    assert [e][1..] == [];
  }
}
