/** The application object and its zero-height export, run on the keepers' stores. */
module App {
  import opened Base
  import opened Sums
  import opened Distribution
  import opened ZeroHeight
  import opened Keepers
  import opened Staking
  import T = ExportTheorems
  import C = Conservation

  class StakingKeeper {
    const order: seq<Addr>
    const dels: seq<Delegation>
    var validators: map<Addr, Validator>
    var reds: map<RedKey, Redelegation>
    var ubds: map<DelKey, UnbondingDelegation>

    constructor (s: Stores)
      ensures State() == s
    {
      order, dels, validators, reds, ubds := s.order, s.dels, s.validators, s.reds, s.ubds;
    }

    function State(): Stores
      reads this
    {
      Stores(order, validators, dels, reds, ubds)
    }

    method SetRedelegation(r: Redelegation)
      modifies this`reds
      ensures reds == old(reds)[r.key := r]
    {
      reds := reds[r.key := r];
    }

    method SetUnbondingDelegation(u: UnbondingDelegation)
      modifies this`ubds
      ensures ubds == old(ubds)[u.key := u]
    {
      ubds := ubds[u.key := u];
    }

    method SetValidator(v: Addr, val: Validator)
      modifies this`validators
      ensures validators == old(validators)[v := val]
    {
      validators := validators[v := val];
    }

    static method ResetRedEntries(r: Redelegation) returns (red: Redelegation)
      ensures red == r.(entries := ZeroRedEntries(r.entries))
    {
      red := r;
      for e := 0 to |red.entries|
        invariant red.key == r.key && |red.entries| == |r.entries|
        invariant forall j :: 0 <= j < e ==> red.entries[j] == r.entries[j].(creationHeight := 0)
        invariant forall j :: e <= j < |red.entries| ==> red.entries[j] == r.entries[j]
      {
        red := red.(entries := red.entries[e := red.entries[e].(creationHeight := 0)]);
      }
      assert red.entries == ZeroRedEntries(r.entries);
    }

    static method ResetUbdEntries(u: UnbondingDelegation) returns (ubd: UnbondingDelegation)
      ensures ubd == u.(entries := ZeroUbdEntries(u.entries))
    {
      ubd := u;
      for e := 0 to |ubd.entries|
        invariant ubd.key == u.key && |ubd.entries| == |u.entries|
        invariant forall j :: 0 <= j < e ==> ubd.entries[j] == u.entries[j].(creationHeight := 0)
        invariant forall j :: e <= j < |ubd.entries| ==> ubd.entries[j] == u.entries[j]
      {
        ubd := ubd.(entries := ubd.entries[e := ubd.entries[e].(creationHeight := 0)]);
      }
      assert ubd.entries == ZeroUbdEntries(u.entries);
    }

    /** Sets every entry's creation height to 0, redelegation by redelegation. */
    method ResetRedelegations()
      requires Keyed(State())
      modifies this`reds
      ensures reds == ZeroReds(old(reds))
    {
      var keys := Base.Keys(reds);
      for i := 0 to |keys|
        invariant reds.Keys == old(reds).Keys
        invariant forall j :: 0 <= j < i ==> reds[keys[j]] == ZeroReds(old(reds))[keys[j]]
        invariant forall j :: i <= j < |keys| ==> reds[keys[j]] == old(reds)[keys[j]]
      {
        var red := ResetRedEntries(reds[keys[i]]);
        SetRedelegation(red);
      }
    }

    /** The same for unbonding delegations. */
    method ResetUnbondingDelegations()
      requires Keyed(State())
      modifies this`ubds
      ensures ubds == ZeroUbds(old(ubds))
    {
      var keys := Base.Keys(ubds);
      for i := 0 to |keys|
        invariant ubds.Keys == old(ubds).Keys
        invariant forall j :: 0 <= j < i ==> ubds[keys[j]] == ZeroUbds(old(ubds))[keys[j]]
        invariant forall j :: i <= j < |keys| ==> ubds[keys[j]] == old(ubds)[keys[j]]
      {
        var ubd := ResetUbdEntries(ubds[keys[i]]);
        SetUnbondingDelegation(ubd);
      }
    }

    /** The whole staking part: redelegations, unbonding delegations, then validators. */
    method ResetAll(c: Codec, apply: bool, listed: map<string, bool>, ghost allowed: seq<string>)
      requires Keyed(State())
      requires apply <==> allowed != []
      requires forall s :: s in listed <==> s in allowed
      modifies this
      ensures State() == ZeroHeightState(c, allowed, old(State()))
    {
      ResetRedelegations();
      ResetUnbondingDelegations();
      ResetAllValidators(c, apply, listed, allowed);
    }

    method ResetOne(c: Codec, apply: bool, listed: map<string, bool>, ghost allowed: seq<string>, addr: Addr)
      requires addr in validators
      requires apply <==> allowed != []
      requires forall s :: s in listed <==> s in allowed
      modifies this`validators
      ensures validators == old(validators)[addr := ResetValidator(c, allowed, addr, old(validators)[addr])]
    {
      var validator := validators[addr];
      validator := validator.(unbondingHeight := 0);
      if apply && c.encode(addr) !in listed {
        validator := validator.(jailed := true);
      }
      SetValidator(addr, validator);
    }

    /** Zeroes unbonding heights and applies the allow-list, from the last validator to the first. */
    method ResetAllValidators(c: Codec, apply: bool, listed: map<string, bool>, ghost allowed: seq<string>)
      requires Keyed(State())
      requires apply <==> allowed != []
      requires forall s :: s in listed <==> s in allowed
      modifies this`validators
      ensures validators == ResetValidators(c, allowed, old(validators))
    {
      var i := |order|;
      while i > 0
        invariant 0 <= i <= |order|
        invariant validators.Keys == old(validators).Keys
        invariant forall j :: i <= j < |order| ==>
          validators[order[j]] == ResetValidators(c, allowed, old(validators))[order[j]]
        invariant forall j :: 0 <= j < i ==> validators[order[j]] == old(validators)[order[j]]
      {
        i := i - 1;
        ResetOne(c, apply, listed, allowed, order[i]);
      }
    }
  }

  class App {
    const distr: DistrKeeper
    const staking: StakingKeeper
    const codec: Codec
    var lastHeight: nat

    constructor (distr: DistrKeeper, staking: StakingKeeper, codec: Codec, lastHeight: nat)
      ensures this.distr == distr && this.staking == staking && this.codec == codec && this.lastHeight == lastHeight
    {
      this.distr, this.staking, this.codec, this.lastHeight := distr, staking, codec, lastHeight;
    }

    function View(): View
      reads staking
    {
      ViewOf(staking.State())
    }

    /** Withdraws every commission, then every delegation's rewards; errors are discarded. */
    method WithdrawAll(k: View, height: nat, failures: Failures)
      modifies distr
      ensures distr.State() == Withdrawn(k, old(distr.State()), height, failures)
    {
      for i := 0 to |k.order|
        invariant distr.State() == WithdrawCommissions(old(distr.State()), k.order[..i], failures.commission)
      {
        assert k.order[..i + 1][..i] == k.order[..i];
        if k.order[i] !in failures.commission {
          distr.WithdrawValidatorCommission(k.order[i]);
        }
      }
      assert k.order[..|k.order|] == k.order;
      ghost var mid := distr.State();
      for i := 0 to |k.dels|
        invariant distr.State() == WithdrawAllRewards(k, mid, k.dels[..i], height, failures.rewards)
      {
        assert k.dels[..i + 1][..i] == k.dels[..i];
        if k.dels[i] !in failures.rewards {
          distr.WithdrawDelegationRewards(k, k.dels[i], height);
        }
      }
      assert k.dels[..|k.dels|] == k.dels;
    }

    /** Donates what is outstanding and initialises every validator again. */
    method ReinitializeValidators(k: View)
      modifies distr
      ensures distr.State() == ReinitAll(old(distr.State()), k.order)
    {
      for i := 0 to |k.order|
        invariant distr.State() == ReinitAll(old(distr.State()), k.order[..i])
      {
        assert k.order[..i + 1][..i] == k.order[..i];
        var rewards := At(distr.outstanding, k.order[i]);
        distr.pool := distr.pool + rewards;
        distr.AfterValidatorCreated(k.order[i]);
      }
      assert k.order[..|k.order|] == k.order;
    }

    /** Runs the creation hooks of every delegation at the context height. */
    method ReinitializeDelegations(k: View, height: nat)
      modifies distr
      ensures height == 0 ==> distr.State() == Replay(k, old(distr.State()), k.dels)
    {
      for i := 0 to |k.dels|
        invariant height == 0 ==> distr.State() == Replay(k, old(distr.State()), k.dels[..i])
      {
        assert k.dels[..i + 1][..i] == k.dels[..i];
        distr.IncrementValidatorPeriod(k, k.dels[i].val);
        distr.InitializeDelegation(k, k.dels[i], height);
      }
      assert k.dels[..|k.dels|] == k.dels;
    }

    /** Reads the allow-list into a table; the result says whether every entry was an address. */
    method ReadAllowed(allowed: seq<string>) returns (ok: bool, listed: map<string, bool>)
      ensures ok <==> Readable(codec, allowed)
      ensures ok <==> forall i :: 0 <= i < |allowed| ==> codec.decode(allowed[i]).Some?
      ensures ok ==> forall s :: s in listed <==> s in allowed
    {
      listed := map[];
      for i := 0 to |allowed|
        invariant Readable(codec, allowed[..i])
        invariant forall s :: s in listed <==> s in allowed[..i]
      {
        if codec.decode(allowed[i]).None? {
          return false, listed;
        }
        listed := listed[allowed[i] := true];
        assert allowed[..i + 1] == allowed[..i] + [allowed[i]];
      }
      assert allowed[..|allowed|] == allowed;
      ok := true;
    }

    /**
     Prepares the stores for a start at height zero. An unreadable allow-list entry stops it
     before anything is changed; it also fails when a keeper panicked, which no valid state allows.
    */
    method PrepForZeroHeightGenesis(allowed: seq<string>, failures: Failures) returns (ok: bool)
      requires Keyed(staking.State())
      modifies distr, staking
      ensures (exists i :: 0 <= i < |allowed| && codec.decode(allowed[i]).None?) ==>
        && !ok && distr.State() == old(distr.State()) && staking.State() == old(staking.State())
      ensures Readable(codec, allowed) ==>
        && (ok <==> !distr.panicked)
        && distr.State() == Prep(old(View()), old(distr.State()), lastHeight, failures)
        && staking.State() == ZeroHeightState(codec, allowed, old(staking.State()))
        && CreationHeightsZeroed(old(staking.State()), staking.State())
        && ValidatorsReset(codec, allowed, old(staking.State()), staking.State())
    {
      hide CreationHeightsZeroed, ValidatorsReset, ZeroHeightState, ViewOf;
      var applyAllowedAddrs := |allowed| > 0;
      var readable, listed := ReadAllowed(allowed);
      if !readable {
        return false;
      }
      var k := View();
      var height := lastHeight;
      WithdrawAll(k, height, failures);
      distr.DeleteAllValidatorSlashEvents();
      distr.DeleteAllValidatorHistoricalRewards();
      height := 0;
      ReinitializeValidators(k);
      ReinitializeDelegations(k, height);
      height := lastHeight;
      staking.ResetAll(codec, applyAllowedAddrs, listed, allowed);
      ZeroHeightRecords(codec, allowed, old(staking.State()));
      ok := !distr.panicked;
    }

    /**
     The height the exported genesis starts at, and the state it is taken from. For a valid state
     the export fails only on an unreadable allow-list, and the exported state is valid again: the
     reference counts match, no keeper panicked, and the rewards still to be paid are covered.
    */
    method ExportAppStateAndValidators(forZeroHeight: bool, allowed: seq<string>, failures: Failures)
      returns (ok: bool, height: nat)
      requires Keyed(staking.State())
      modifies distr, staking
      ensures !forZeroHeight ==>
        && ok && height == lastHeight + 1
        && distr.State() == old(distr.State()) && staking.State() == old(staking.State())
      ensures forZeroHeight ==> height == 0 && (ok <==> Readable(codec, allowed) && !distr.panicked)
      ensures forZeroHeight && T.Ready(old(View()), old(distr.State()), lastHeight) ==>
        (ok <==> Readable(codec, allowed))
      ensures View() == old(View())
      ensures T.Ready(old(View()), old(distr.State()), lastHeight) ==>
        && T.Ready(View(), distr.State(), lastHeight)
        && (forZeroHeight && ok ==> forall h: nat :: T.Ready(View(), distr.State(), h))
      ensures C.Conserved(old(distr.Funds()), distr.Funds())
    {
      hide T.Ready, T.Start, Prep, C.Conserved, Keyed;
      ok, height := true, lastHeight + 1;
      C.ConservedTrans(distr.Funds(), distr.Funds(), distr.Funds());
      if forZeroHeight {
        height := 0;
        ok := PrepForZeroHeightGenesis(allowed, failures);
        if Readable(codec, allowed) {
          ViewUnchanged(codec, allowed, old(staking.State()));
          C.PrepConserves(old(View()), old(distr.State()), lastHeight, failures);
          if T.Ready(old(View()), old(distr.State()), lastHeight) {
            T.PrepReady(old(View()), old(distr.State()), lastHeight, failures);
            ReadyIsRunning(View(), distr.State(), lastHeight);
          }
        }
      }
    }
  }

  lemma ReadyIsRunning(k: View, s: Distr, height: nat)
    requires T.Ready(k, s, height)
    ensures !s.panicked
  {
  }

  /** Preparing twice is preparing once, for staking and distribution together. */
  lemma PrepTwice(c: Codec, allowed: seq<string>, st: Stores, s: Distr,
                  height: nat, f: Failures, height': nat, f': Failures)
    requires T.Ready(ViewOf(st), s, height)
    ensures var st1, s1 := ZeroHeightState(c, allowed, st), Prep(ViewOf(st), s, height, f);
      && ZeroHeightState(c, allowed, st1) == st1
      && Prep(ViewOf(st1), s1, height', f') == s1
  {
    ZeroHeightIdempotent(c, allowed, st);
    ViewUnchanged(c, allowed, st);
    T.PrepIdempotent(ViewOf(st), s, height, f, height', f');
  }
}
