/**
 The keepers as objects that update their stores in place. Every method of the distribution
 keeper is proved against its function of the state in module Distribution.
*/
module Keepers {
  import opened Base
  import opened Sums
  import opened Distribution

  class DistrKeeper {
    var bal: int
    var accounts: map<Addr, int>
    var withdrawTo: map<Addr, Addr>
    var pool: int
    var outstanding: map<Addr, int>
    var commission: map<Addr, int>
    var history: map<RecKey, Historical>
    var current: map<Addr, Current>
    var starting: map<DelKey, StartingInfo>
    var slashes: map<Addr, seq<SlashEvent>>
    var panicked: bool

    constructor (s: Distr)
      ensures State() == s
    {
      bal, accounts, withdrawTo, pool := s.money.bal, s.money.accounts, s.money.withdrawTo, s.money.pool;
      outstanding, commission := s.money.outstanding, s.money.commission;
      history, current := s.book.history, s.book.current;
      starting, slashes := s.book.starting, s.book.slashes;
      panicked := s.panicked;
    }

    function Funds(): Money
      reads this
    {
      Money(bal, accounts, withdrawTo, pool, outstanding, commission)
    }

    function Records(): Book
      reads this
    {
      Book(history, current, starting, slashes)
    }

    function State(): Distr
      reads this
    {
      Distr(Funds(), Records(), panicked)
    }

    method IncrementReferenceCount(r: RecKey)
      modifies this`history, this`panicked
      ensures if Refs(old(Records()), r) >= 2
              then State() == Panic(old(State()))
              else State() == old(State()).(book := old(Records()).(history := Raised(old(Records()), r)))
    {
      var record := if r in history then history[r] else Historical(0, 0);
      if record.refs >= 2 {
        panicked := true;
        return;
      }
      history := history[r := record.(refs := record.refs + 1)];
    }

    method DecrementReferenceCount(r: RecKey)
      modifies this`history, this`panicked
      ensures if Refs(old(Records()), r) == 0
              then State() == Panic(old(State()))
              else State() == old(State()).(book := old(Records()).(history := Lowered(old(Records()), r)))
    {
      var record := if r in history then history[r] else Historical(0, 0);
      if record.refs == 0 {
        panicked := true;
      } else if record.refs == 1 {
        history := history - {r};
      } else {
        history := history[r := record.(refs := record.refs - 1)];
      }
    }

    method DonateToPool(v: Addr, amount: int)
      modifies this`pool, this`outstanding
      ensures State() == old(State()).(money := PoolRewards(old(Funds()), v, amount))
    {
      pool := pool + amount;
      outstanding := outstanding[v := At(outstanding, v) - amount];
    }

    method CloseRecords(v: Addr, period: nat, gain: int)
      requires period >= 1 && Cur(Records(), v).period == period && Refs(Records(), RecKey(v, period - 1)) > 0
      modifies this`history, this`current, this`panicked
      ensures State() == old(State()).(book := EndPeriod(old(Records()), v, gain))
    {
      var ratio := Ratio(Records(), RecKey(v, period - 1));
      DecrementReferenceCount(RecKey(v, period - 1));
      history := history[RecKey(v, period) := Historical(ratio + gain, 1)];
      current := current[v := Current(0, period + 1)];
    }

    method IncrementValidatorPeriod(k: View, v: Addr)
      modifies this
      ensures State() == IncrementPeriod(k, old(State()), v)
    {
      var rewards := if v in current then current[v] else Current(0, 0);
      if rewards.period == 0 || Refs(Records(), RecKey(v, rewards.period - 1)) == 0 {
        panicked := true;
        return;
      }
      var gain := 0;
      if Tokens(k, v) == 0 {
        if At(outstanding, v) < rewards.rewards {
          panicked := true;
          return;
        }
        DonateToPool(v, rewards.rewards);
      } else {
        gain := rewards.rewards / Tokens(k, v);
      }
      CloseRecords(v, rewards.period, gain);
    }

    method InitializeDelegation(k: View, d: DelKey, height: nat)
      modifies this
      ensures State() == StartDelegation(k, old(State()), d, height)
    {
      var period := if d.val in current then current[d.val].period else 0;
      if period == 0 {
        panicked := true;
        return;
      }
      var full := Refs(Records(), RecKey(d.val, period - 1)) >= 2;
      IncrementReferenceCount(RecKey(d.val, period - 1));
      if !full {
        starting := starting[d := StartingInfo(period - 1, StakeOf(k, d), height)];
      }
    }

    method SendToAccount(owner: Addr, whole: int)
      modifies this`bal, this`accounts
      ensures State() == old(State()).(money := Pay(old(Funds()), owner, whole))
    {
      if whole != 0 {
        var a := WithdrawAddr(Funds(), owner);
        bal := bal - whole;
        accounts := accounts[a := At(accounts, a) + whole];
      }
    }

    method WithdrawValidatorCommission(v: Addr)
      modifies this
      ensures State() == WithdrawCommission(old(State()), v)
    {
      var accumulated := At(commission, v);
      var whole := accumulated / PRECISION;
      if accumulated == 0 || bal < whole {
        return;
      }
      if At(outstanding, v) < whole * PRECISION {
        panicked := true;
        return;
      }
      commission := commission[v := accumulated - whole * PRECISION];
      outstanding := outstanding[v := At(outstanding, v) - whole * PRECISION];
      SendToAccount(v, whole);
    }

    /** Walks the slash events, shrinking the stake at each; None where a sanity check panics. */
    method CalculateDelegationRewards(k: View, d: DelKey, height: nat) returns (raw: Option<int>)
      ensures raw == RewardsOf(k, Records(), d, height)
    {
      if d !in starting || Cur(Records(), d.val).period == 0 {
        return None;
      }
      var info := starting[d];
      if info.height == height {
        return Some(0);
      }
      var events := if height > info.height && d.val in slashes then slashes[d.val] else [];
      var to := Cur(Records(), d.val).period - 1;
      var b := Records();
      var total, from, stake: int := 0, info.period, info.stake;
      for i := 0 to |events|
        invariant RewardsOf(k, b, d, height) ==
                  Plus(total, Accrued(b, d.val, events[i..], info.height, height, from, to, stake, WorthOf(k, d)))
        invariant from >= 0
      {
        var e := events[i];
        assert events[i..][0] == e && events[i..][1..] == events[i + 1..];
        if info.height <= e.height <= height && e.period > from {
          var part := Between(b, d.val, from, e.period, stake);
          if part.None? {
            return None;
          }
          total := total + part.value;
          stake := stake * (PRECISION - e.fraction) / PRECISION;
          from := e.period;
        }
      }
      assert events[|events|..] == [];
      var currentStake := WorthOf(k, d);
      if stake > currentStake {
        if stake <= currentStake + MARGIN {
          stake := currentStake;
        } else {
          return None;
        }
      }
      var last := Between(b, d.val, from, to, stake);
      if last.None? {
        return None;
      }
      return Some(total + last.value);
    }

    method ReleaseDelegation(d: DelKey)
      modifies this`history, this`starting, this`panicked
      ensures State() == StopDelegation(old(State()), d)
    {
      if d !in starting || Refs(Records(), RecKey(d.val, starting[d].period)) == 0 {
        panicked := true;
        return;
      }
      DecrementReferenceCount(RecKey(d.val, starting[d].period));
      starting := starting - {d};
    }

    method PayDelegator(d: DelKey, amount: int)
      modifies this`bal, this`accounts, this`outstanding, this`pool
      ensures State() == old(State()).(money := PayRewards(old(Funds()), d, amount))
    {
      var whole := amount / PRECISION;
      SendToAccount(d.del, whole);
      outstanding := outstanding[d.val := At(outstanding, d.val) - amount];
      pool := pool + amount - whole * PRECISION;
    }

    method WithdrawDelegationRewards(k: View, d: DelKey, height: nat)
      modifies this
      ensures State() == WithdrawRewards(k, old(State()), d, height)
    {
      if d !in k.dels || d.val !in k.order || d !in starting {
        return;
      }
      IncrementValidatorPeriod(k, d.val);
      if panicked {
        return;
      }
      var raw := CalculateDelegationRewards(k, d, height);
      if raw.None? {
        panicked := true;
        return;
      }
      var amount := Min(raw.value, At(outstanding, d.val));
      if bal < amount / PRECISION {
        return;
      }
      PayDelegator(d, amount);
      ReleaseDelegation(d);
      InitializeDelegation(k, d, height);
    }

    method DeleteAllValidatorSlashEvents()
      modifies this`slashes
      ensures State() == old(State()).(book := old(Records()).(slashes := map[]))
    {
      slashes := map[];
    }

    method DeleteAllValidatorHistoricalRewards()
      modifies this`history
      ensures State() == old(State()).(book := old(Records()).(history := map[]))
    {
      history := map[];
    }

    method AfterValidatorCreated(v: Addr)
      modifies this`history, this`current, this`commission, this`outstanding
      ensures State() == InitValidator(old(State()), v)
    {
      history := history[RecKey(v, 0) := Historical(0, 1)];
      current := current[v := Current(0, 1)];
      commission := commission[v := 0];
      outstanding := outstanding[v := 0];
    }

    static function Plus(n: int, x: Option<int>): Option<int> {
      match x case None => None case Some(y) => Some(n + y)
    }
  }
}
