/**
 The distribution module's state, seen as a value, and the keeper operations the export calls.

 Amounts are those of one denomination: every operation acts on each denomination separately.
 Whole tokens are plain integers; decimal amounts are scaled by PRECISION.
*/
module Distribution {
  import opened Base
  import opened Sums

  datatype DelKey = DelKey(val: Addr, del: Addr)
  datatype RecKey = RecKey(val: Addr, period: nat)

  datatype Current = Current(rewards: int, period: nat)
  datatype Historical = Historical(ratio: int, refs: nat)
  datatype StartingInfo = StartingInfo(period: nat, stake: nat, height: nat)
  datatype SlashEvent = SlashEvent(height: nat, period: nat, fraction: int)

  datatype Money = Money(
    bal: int,                             // whole tokens held by the module account
    accounts: map<Addr, int>,             // whole tokens held by everybody else
    withdrawTo: map<Addr, Addr>,          // withdraw addresses that differ from the owner
    pool: int,                            // community pool
    outstanding: map<Addr, int>,
    commission: map<Addr, int>)

  datatype Book = Book(
    history: map<RecKey, Historical>,
    current: map<Addr, Current>,
    starting: map<DelKey, StartingInfo>,
    slashes: map<Addr, seq<SlashEvent>>)

  /** `panicked` records that a keeper panicked: it stays set, and nothing that follows matters. */
  datatype Distr = Distr(money: Money, book: Book, panicked: bool)

  /**
   What the distribution keeper sees of staking: validators and delegations in store order, the
   tokens of each validator, and the token value of each delegation's shares, truncated (`stake`)
   and rounded (`worth`).
  */
  datatype View = View(order: seq<Addr>, tokens: map<Addr, nat>, dels: seq<DelKey>,
                       stake: map<DelKey, nat>, worth: map<DelKey, nat>)

  function Tokens(k: View, v: Addr): nat { if v in k.tokens then k.tokens[v] else 0 }
  function StakeOf(k: View, d: DelKey): nat { if d in k.stake then k.stake[d] else 0 }
  function WorthOf(k: View, d: DelKey): nat { if d in k.worth then k.worth[d] else 0 }

  // ----- reads: a record that is not stored reads as its zero value -----

  function Cur(b: Book, v: Addr): Current { if v in b.current then b.current[v] else Current(0, 0) }
  function Refs(b: Book, r: RecKey): nat { if r in b.history then b.history[r].refs else 0 }
  function Ratio(b: Book, r: RecKey): int { if r in b.history then b.history[r].ratio else 0 }
  function WithdrawAddr(m: Money, a: Addr): Addr { if a in m.withdrawTo then m.withdrawTo[a] else a }

  // ----- the book of periods -----

  function Raised(b: Book, r: RecKey): map<RecKey, Historical> {
    b.history[r := Historical(Ratio(b, r), Refs(b, r) + 1)]
  }

  /** A record that loses its last reference is deleted. */
  function Lowered(b: Book, r: RecKey): map<RecKey, Historical> {
    if Refs(b, r) <= 1 then b.history - {r} else b.history[r := Historical(Ratio(b, r), Refs(b, r) - 1)]
  }

  function LastEnded(b: Book, v: Addr): RecKey
    requires Cur(b, v).period >= 1
  {
    RecKey(v, Cur(b, v).period - 1)
  }

  /** v's running period ends; the cumulative ratio grows by `gain` and moves to a new record. */
  function EndPeriod(b: Book, v: Addr, gain: int): Book
    requires Cur(b, v).period >= 1
  {
    var p, last := Cur(b, v).period, LastEnded(b, v);
    b.(history := Lowered(b, last)[RecKey(v, p) := Historical(Ratio(b, last) + gain, 1)],
       current := b.current[v := Current(0, p + 1)])
  }

  function Point(b: Book, d: DelKey, info: StartingInfo): Book {
    b.(history := Raised(b, RecKey(d.val, info.period)), starting := b.starting[d := info])
  }

  function Unpoint(b: Book, d: DelKey): Book
    requires d in b.starting
  {
    b.(history := Lowered(b, RecKey(d.val, b.starting[d].period)), starting := b.starting - {d})
  }

  // ----- keeper operations -----

  function Panic(s: Distr): Distr { s.(panicked := true) }

  function PerToken(rewards: int, tokens: nat): int { if tokens == 0 then 0 else rewards / tokens }

  /** Rewards of a validator without tokens go from its outstanding rewards to the pool. */
  function PoolRewards(m: Money, v: Addr, amount: int): Money {
    m.(pool := m.pool + amount, outstanding := m.outstanding[v := At(m.outstanding, v) - amount])
  }

  /** Ends the validator's period: its rewards per token join the cumulative ratio. */
  function IncrementPeriod(k: View, s: Distr, v: Addr): Distr {
    var cur, tokens := Cur(s.book, v), Tokens(k, v);
    if cur.period == 0 || Refs(s.book, LastEnded(s.book, v)) == 0 then Panic(s)
    else if tokens > 0 then s.(book := EndPeriod(s.book, v, PerToken(cur.rewards, tokens)))
    else if At(s.money.outstanding, v) < cur.rewards then Panic(s)
    else s.(money := PoolRewards(s.money, v, cur.rewards), book := EndPeriod(s.book, v, 0))
  }

  /** The delegation's shares start earning at the period just ended. */
  function StartDelegation(k: View, s: Distr, d: DelKey, height: nat): Distr {
    var period := Cur(s.book, d.val).period;
    if period == 0 || Refs(s.book, LastEnded(s.book, d.val)) >= 2 then Panic(s)
    else s.(book := Point(s.book, d, StartingInfo(period - 1, StakeOf(k, d), height)))
  }

  /** The delegation stops earning: its starting period loses a reference, its starting info goes. */
  function StopDelegation(s: Distr, d: DelKey): Distr {
    if d !in s.book.starting || Refs(s.book, RecKey(d.val, s.book.starting[d].period)) == 0 then Panic(s)
    else s.(book := Unpoint(s.book, d))
  }

  function InitValidator(s: Distr, v: Addr): Distr {
    s.(money := s.money.(commission := s.money.commission[v := 0], outstanding := s.money.outstanding[v := 0]),
       book := s.book.(history := s.book.history[RecKey(v, 0) := Historical(0, 1)],
                       current := s.book.current[v := Current(0, 1)]))
  }

  /** Moves whole tokens from the module account to the owner's withdraw address. */
  function Pay(m: Money, owner: Addr, whole: int): Money {
    if whole == 0 then m
    else
      var a := WithdrawAddr(m, owner);
      m.(bal := m.bal - whole, accounts := m.accounts[a := At(m.accounts, a) + whole])
  }

  // ----- accrued rewards -----

  function Min(a: int, b: int): int { if a <= b then a else b }

  /** Rewards of a stake from one period to another; None where the keeper panics. */
  function Between(b: Book, v: Addr, from: nat, to: nat, stake: int): Option<int> {
    var diff := Ratio(b, RecKey(v, to)) - Ratio(b, RecKey(v, from));
    if from > to || stake < 0 || diff < 0 then None else Some(diff * stake / PRECISION)
  }

  /** Rounding errors the keeper tolerates in a slashed stake. */
  const MARGIN: nat := 3

  /** Rewards of the last stretch; the keeper panics on a stake well above the delegation's worth. */
  function LastStretch(b: Book, v: Addr, from: nat, to: nat, stake: int, worth: nat): Option<int> {
    if stake > worth + MARGIN then None else Between(b, v, from, to, Min(stake, worth))
  }

  function Slashed(stake: int, e: SlashEvent): int { stake * (PRECISION - e.fraction) / PRECISION }

  /** Rewards up to period `to`, the stake shrinking at each slash event of heights lo..hi. */
  function Accrued(b: Book, v: Addr, events: seq<SlashEvent>, lo: nat, hi: nat,
                   from: nat, to: nat, stake: int, worth: nat): Option<int>
  {
    if events == [] then LastStretch(b, v, from, to, stake, worth)
    else
      var e := events[0];
      if lo <= e.height <= hi && e.period > from then
        match (Between(b, v, from, e.period, stake),
               Accrued(b, v, events[1..], lo, hi, e.period, to, Slashed(stake, e), worth))
        case (Some(x), Some(y)) => Some(x + y)
        case _ => None
      else Accrued(b, v, events[1..], lo, hi, from, to, stake, worth)
  }

  /** The slash events that may matter to a delegation at the given height. */
  function EventsFor(b: Book, d: DelKey, height: nat): seq<SlashEvent>
    requires d in b.starting
  {
    if height > b.starting[d].height && d.val in b.slashes then b.slashes[d.val] else []
  }

  /** Rewards of a delegation at the given height up to the validator's last ended period. */
  function RewardsOf(k: View, b: Book, d: DelKey, height: nat): Option<int> {
    if d !in b.starting || Cur(b, d.val).period == 0 then None
    else if b.starting[d].height == height then Some(0)
    else
      var info := b.starting[d];
      Accrued(b, d.val, EventsFor(b, d, height), info.height, height,
              info.period, Cur(b, d.val).period - 1, info.stake, WorthOf(k, d))
  }

  // ----- withdrawals -----

  /** Takes the whole tokens of v's commission, keeping the fraction, and pays them. */
  function PayCommission(m: Money, v: Addr, whole: int): Money {
    Pay(m.(commission := m.commission[v := At(m.commission, v) - whole * PRECISION],
           outstanding := m.outstanding[v := At(m.outstanding, v) - whole * PRECISION]), v, whole)
  }

  /** Nothing happens when there is no commission, or the module account cannot pay it. */
  function WithdrawCommission(s: Distr, v: Addr): Distr {
    var comm := At(s.money.commission, v);
    var whole := comm / PRECISION;
    if comm == 0 || s.money.bal < whole then s
    else if At(s.money.outstanding, v) < whole * PRECISION then Panic(s)
    else s.(money := PayCommission(s.money, v, whole))
  }

  /** Takes `amount` from what is outstanding: whole tokens to the delegator, the rest to the pool. */
  function PayRewards(m: Money, d: DelKey, amount: int): Money {
    var whole := amount / PRECISION;
    var t := Pay(m, d.del, whole);
    t.(outstanding := t.outstanding[d.val := At(t.outstanding, d.val) - amount],
       pool := t.pool + amount - whole * PRECISION)
  }

  /** What a delegation receives once its validator's period has ended, capped by what is there. */
  function Payout(t: Distr, d: DelKey, raw: int): int { Min(raw, At(t.money.outstanding, d.val)) }

  /** The delegation is paid, released from its starting period, and started afresh. */
  function Settle(k: View, t: Distr, d: DelKey, amount: int, height: nat): Distr {
    StartDelegation(k, StopDelegation(t.(money := PayRewards(t.money, d, amount)), d), d, height)
  }

  /** The period has already ended when the module account turns out to be unable to pay. */
  function WithdrawRewards(k: View, s: Distr, d: DelKey, height: nat): Distr {
    if d !in k.dels || d.val !in k.order || d !in s.book.starting then s
    else
      var t := IncrementPeriod(k, s, d.val);
      if t.panicked then t
      else
        match RewardsOf(k, t.book, d, height)
        case None => Panic(t)
        case Some(raw) =>
          if t.money.bal < Payout(t, d, raw) / PRECISION then t
          else Settle(k, t, d, Payout(t, d, raw), height)
  }
}
