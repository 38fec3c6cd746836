/**
 The distribution part of the zero-height export, phase by phase, as functions of the state.
 Each fold takes its list from the front, so that a loop over the list computes it step by step.
*/
module ZeroHeight {
  import opened Base
  import opened Sums
  import opened Distribution

  /** The withdrawals whose error the export discards: any of them may fail. */
  datatype Failures = Failures(commission: set<Addr>, rewards: set<DelKey>)

  function WithdrawCommissions(s: Distr, vals: seq<Addr>, failed: set<Addr>): Distr {
    if vals == [] then s
    else
      var t, v := WithdrawCommissions(s, vals[..|vals| - 1], failed), vals[|vals| - 1];
      if v in failed then t else WithdrawCommission(t, v)
  }

  function WithdrawAllRewards(k: View, s: Distr, dels: seq<DelKey>, height: nat, failed: set<DelKey>): Distr {
    if dels == [] then s
    else
      var t, d := WithdrawAllRewards(k, s, dels[..|dels| - 1], height, failed), dels[|dels| - 1];
      if d in failed then t else WithdrawRewards(k, t, d, height)
  }

  function Withdrawn(k: View, s: Distr, height: nat, f: Failures): Distr {
    WithdrawAllRewards(k, WithdrawCommissions(s, k.order, f.commission), k.dels, height, f.rewards)
  }

  /** Slash events and historical rewards are deleted; starting infos and current rewards are not. */
  function Erase(s: Distr): Distr {
    s.(book := s.book.(slashes := map[], history := map[]))
  }

  /** What is still outstanding goes to the community pool; the validator's records start over. */
  function Reinit(s: Distr, v: Addr): Distr {
    InitValidator(s.(money := s.money.(pool := s.money.pool + At(s.money.outstanding, v))), v)
  }

  function ReinitAll(s: Distr, vals: seq<Addr>): Distr {
    if vals == [] then s else Reinit(ReinitAll(s, vals[..|vals| - 1]), vals[|vals| - 1])
  }

  /** Every delegation is created again at height 0. */
  function Replay(k: View, s: Distr, dels: seq<DelKey>): Distr {
    if dels == [] then s
    else
      var t, d := Replay(k, s, dels[..|dels| - 1]), dels[|dels| - 1];
      StartDelegation(k, IncrementPeriod(k, t, d.val), d, 0)
  }

  function Rebuild(k: View, s: Distr): Distr {
    Replay(k, ReinitAll(Erase(s), k.order), k.dels)
  }

  function Prep(k: View, s: Distr, height: nat, f: Failures): Distr {
    Rebuild(k, Withdrawn(k, s, height, f))
  }
}
