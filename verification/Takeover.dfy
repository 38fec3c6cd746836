/**
 The in-place testnet: the validator set of a copied chain is replaced by one validator, its
 distribution records are initialised, and the accounts to fund are minted to.
*/
module Takeover {
  import opened Base
  import opened Sums
  import opened ByteStore
  import opened Distribution
  import opened Keepers
  import opened Text

  // ----- replacing the validator set -----

  /** The key prefixes of the four families that are swept. */
  datatype Families = Families(power: Bytes, last: Bytes, validators: Bytes, queue: Bytes)

  /** The new validator's keys within the families, its consensus-address key, and its records. */
  datatype NewValidator = NewValidator(
    addr: Bytes, rank: Bytes, consKey: Bytes, record: Bytes, consRecord: Bytes, rankRecord: Bytes, power: Bytes)

  predicate Incomparable(p: Bytes, q: Bytes) { !(p <= q) && !(q <= p) }

  /** No key belongs to two families. */
  predicate Apart(f: Families) {
    && Incomparable(f.power, f.last) && Incomparable(f.power, f.validators) && Incomparable(f.power, f.queue)
    && Incomparable(f.last, f.validators) && Incomparable(f.last, f.queue) && Incomparable(f.validators, f.queue)
  }

  predicate InFamilies(f: Families, k: Bytes) {
    f.power <= k || f.last <= k || f.validators <= k || f.queue <= k
  }

  ghost function Family(m: map<Bytes, Bytes>, p: Bytes): set<Bytes> { set k | k in m && p <= k }

  function Swept4(m: map<Bytes, Bytes>, f: Families): map<Bytes, Bytes> {
    map k | k in m && !InFamilies(f, k) :: m[k]
  }

  function Replaced(m: map<Bytes, Bytes>, f: Families, v: NewValidator): map<Bytes, Bytes> {
    Swept4(m, f)[f.validators + v.addr := v.record][v.consKey := v.consRecord]
      [f.power + v.rank := v.rankRecord][f.last + v.addr := v.power]
  }

  lemma FourSweeps(m: map<Bytes, Bytes>, f: Families)
    ensures WithoutPrefix(WithoutPrefix(WithoutPrefix(WithoutPrefix(m, f.power), f.last), f.validators), f.queue)
            == Swept4(m, f)
  {
  }

  /** The store after sweeping the families with these prefixes one after the other. */
  function SweptAll(m: map<Bytes, Bytes>, ps: seq<Bytes>): map<Bytes, Bytes> {
    if ps == [] then m else WithoutPrefix(SweptAll(m, ps[..|ps| - 1]), ps[|ps| - 1])
  }

  lemma {:induction false} SweptAllIs(m: map<Bytes, Bytes>, ps: seq<Bytes>)
    ensures forall k :: k in SweptAll(m, ps) <==> k in m && forall i :: 0 <= i < |ps| ==> !(ps[i] <= k)
    ensures forall k :: k in SweptAll(m, ps) ==> SweptAll(m, ps)[k] == m[k]
  {
    if ps != [] {
      SweptAllIs(m, ps[..|ps| - 1]);
    }
  }

  /** Sweeps in any order, and any number of times, leave the same store. */
  lemma SweepOrder(m: map<Bytes, Bytes>, ps: seq<Bytes>, qs: seq<Bytes>)
    requires forall p :: p in ps <==> p in qs
    ensures SweptAll(m, ps) == SweptAll(m, qs)
  {
    SweptAllIs(m, ps);
    SweptAllIs(m, qs);
    forall k | k in m ensures k in SweptAll(m, ps) <==> k in SweptAll(m, qs) {
      if i :| 0 <= i < |ps| && ps[i] <= k {
        assert ps[i] in qs;
      }
      if i :| 0 <= i < |qs| && qs[i] <= k {
        assert qs[i] in ps;
      }
    }
  }

  /** The four sweeps of the takeover are such a sequence. */
  lemma FourIsSweptAll(m: map<Bytes, Bytes>, f: Families)
    ensures SweptAll(m, [f.power, f.last, f.validators, f.queue]) == Swept4(m, f)
  {
    var ps := [f.power, f.last, f.validators, f.queue];
    SweptAllIs(m, ps);
    forall k | k in m ensures k in SweptAll(m, ps) <==> !InFamilies(f, k) {
      assert ps[0] == f.power && ps[1] == f.last && ps[2] == f.validators && ps[3] == f.queue;
    }
  }

  /** The power store is iterated downwards, the other families upwards. */
  method ReplaceValidators(store: KVStore, f: Families, v: NewValidator)
    modifies store
    ensures store.data == Replaced(old(store.data), f, v)
  {
    store.SweepPrefixDown(f.power);
    store.SweepPrefix(f.last);
    store.SweepPrefix(f.validators);
    store.SweepPrefix(f.queue);
    FourSweeps(old(store.data), f);
    store.Set(f.validators + v.addr, v.record);
    store.Set(v.consKey, v.consRecord);
    store.Set(f.power + v.rank, v.rankRecord);
    store.Set(f.last + v.addr, v.power);
  }

  lemma ApartMembership(p: Bytes, q: Bytes, k: Bytes)
    requires Incomparable(p, q) && p <= k
    ensures !(q <= k)
  {
  }

  /** The new validator is alone in the families it is in, and the unbonding queue is empty. */
  lemma OneValidatorLeft(m: map<Bytes, Bytes>, f: Families, v: NewValidator)
    requires Apart(f) && !InFamilies(f, v.consKey)
    ensures var n := Replaced(m, f, v);
      && Family(n, f.validators) == {f.validators + v.addr}
      && Family(n, f.power) == {f.power + v.rank}
      && Family(n, f.last) == {f.last + v.addr}
      && Family(n, f.queue) == {}
      && n[f.validators + v.addr] == v.record && n[f.power + v.rank] == v.rankRecord
      && n[f.last + v.addr] == v.power && n[v.consKey] == v.consRecord
  {
    hide Replaced;
    ReplacedValues(m, f, v);
    var n := Replaced(m, f, v);
    var a, b, c := f.validators + v.addr, f.power + v.rank, f.last + v.addr;
    OnlyNewKeys(m, f, v);
    ApartMembership(f.validators, f.power, a);
    ApartMembership(f.validators, f.last, a);
    ApartMembership(f.validators, f.queue, a);
    ApartMembership(f.power, f.validators, b);
    ApartMembership(f.power, f.last, b);
    ApartMembership(f.power, f.queue, b);
    ApartMembership(f.last, f.validators, c);
    ApartMembership(f.last, f.power, c);
    ApartMembership(f.last, f.queue, c);
    FamilyIs(n, f, f.validators, a, b, c);
    FamilyIs(n, f, f.power, b, a, c);
    FamilyIs(n, f, f.last, c, a, b);
  }

  lemma ReplacedValues(m: map<Bytes, Bytes>, f: Families, v: NewValidator)
    requires Apart(f) && !InFamilies(f, v.consKey)
    ensures var n := Replaced(m, f, v);
      var a, b, c := f.validators + v.addr, f.power + v.rank, f.last + v.addr;
      && a in n && b in n && c in n && v.consKey in n
      && n[a] == v.record && n[b] == v.rankRecord && n[c] == v.power && n[v.consKey] == v.consRecord
  {
    ApartMembership(f.power, f.validators, f.power + v.rank);
    ApartMembership(f.last, f.validators, f.last + v.addr);
    ApartMembership(f.last, f.power, f.last + v.addr);
  }

  /** Of the four families only the new validator's own keys are left. */
  lemma OnlyNewKeys(m: map<Bytes, Bytes>, f: Families, v: NewValidator)
    requires !InFamilies(f, v.consKey)
    ensures var n := Replaced(m, f, v);
      var a, b, c := f.validators + v.addr, f.power + v.rank, f.last + v.addr;
      && a in n && b in n && c in n
      && forall k :: k in n && InFamilies(f, k) ==> k == a || k == b || k == c
  {
  }

  lemma FamilyIs(n: map<Bytes, Bytes>, f: Families, p: Bytes, k: Bytes, x: Bytes, y: Bytes)
    requires p == f.power || p == f.last || p == f.validators
    requires k in n && p <= k && !(p <= x) && !(p <= y)
    requires forall j :: j in n && InFamilies(f, j) ==> j == k || j == x || j == y
    ensures Family(n, p) == {k}
  {
  }

  /** Every other key keeps its value: in particular old consensus-address entries stay behind. */
  lemma OthersUnchanged(m: map<Bytes, Bytes>, f: Families, v: NewValidator, k: Bytes)
    requires !(f.power <= k) && !(f.last <= k) && !(f.validators <= k) && !(f.queue <= k) && k != v.consKey
    ensures k in Replaced(m, f, v) <==> k in m
    ensures k in m ==> Replaced(m, f, v)[k] == m[k]
  {
  }

  /** The family of consensus-address entries lies apart from the swept ones. */
  predicate ApartFrom(f: Families, p: Bytes) {
    Incomparable(p, f.power) && Incomparable(p, f.last) && Incomparable(p, f.validators) && Incomparable(p, f.queue)
  }

  lemma NotSwept(f: Families, p: Bytes, k: Bytes)
    requires ApartFrom(f, p) && p <= k
    ensures !InFamilies(f, k)
  {
    ApartMembership(p, f.power, k);
    ApartMembership(p, f.last, k);
    ApartMembership(p, f.validators, k);
    ApartMembership(p, f.queue, k);
  }

  /**
   The consensus-address index holds the new validator alone exactly when no other validator had
   an entry in it: it is not one of the families that are swept.
  */
  lemma ConsensusEntryAloneIff(m: map<Bytes, Bytes>, f: Families, v: NewValidator, p: Bytes)
    requires ApartFrom(f, p) && p <= v.consKey
    ensures Family(Replaced(m, f, v), p) == {v.consKey} <==> Family(m, p) <= {v.consKey}
  {
    var n := Replaced(m, f, v);
    forall k | p <= k && k != v.consKey
      ensures k in n <==> k in m
    {
      NotSwept(f, p, k);
      OthersUnchanged(m, f, v, k);
    }
    OwnConsensusEntry(m, f, v, p);
    if Family(n, p) == {v.consKey} {
      forall k | k in Family(m, p) ensures k in {v.consKey} {
        assert k != v.consKey ==> k in Family(n, p);
      }
    }
    if Family(m, p) <= {v.consKey} {
      forall k | k in Family(n, p) ensures k == v.consKey {
        assert k != v.consKey ==> k in Family(m, p);
      }
    }
  }

  lemma OwnConsensusEntry(m: map<Bytes, Bytes>, f: Families, v: NewValidator, p: Bytes)
    requires ApartFrom(f, p) && p <= v.consKey
    ensures v.consKey in Family(Replaced(m, f, v), p)
  {
  }

  lemma SingleBytesApart(a: Byte, b: Byte)
    requires a != b
    ensures Incomparable([a], [b])
  {
    assert [a][0] != [b][0];
  }

  /** A store with one old validator: its consensus-address entry survives beside the new one. */
  lemma OldConsensusEntryStays()
    ensures var f := Families([0x23], [0x11], [0x21], [0x43]);
      var v := NewValidator([2], [2], [0x22, 2], [], [], [], []);
      && ApartFrom(f, [0x22])
      && Family(Replaced(map[[0x21, 1] := [], [0x22, 1] := []], f, v), [0x22]) == {[0x22, 1], [0x22, 2]}
  {
    var f := Families([0x23], [0x11], [0x21], [0x43]);
    var v := NewValidator([2], [2], [0x22, 2], [], [], [], []);
    var m: map<Bytes, Bytes> := map[[0x21, 1] := [], [0x22, 1] := []];
    var old1: Bytes := [0x22, 1];
    SingleBytesApart(0x22, 0x23);
    SingleBytesApart(0x22, 0x11);
    SingleBytesApart(0x22, 0x21);
    SingleBytesApart(0x22, 0x43);
    assert [0x22] <= old1;
    NotSwept(f, [0x22], old1);
    OthersUnchanged(m, f, v, old1);
    OwnConsensusEntry(m, f, v, [0x22]);
    forall k | k in Family(Replaced(m, f, v), [0x22]) && k != [0x22, 2] ensures k == [0x22, 1] {
      NotSwept(f, [0x22], k);
      OthersUnchanged(m, f, v, k);
      assert k in m && k[0] == 0x22;
    }
  }

  // ----- distribution records -----

  method SetRecords(distr: DistrKeeper, v: Addr)
    modifies distr
    ensures distr.State() == InitValidator(old(distr.State()), v)
  {
    distr.history := distr.history[RecKey(v, 0) := Historical(0, 1)];
    distr.current := distr.current[v := Current(0, 1)];
    distr.commission := distr.commission[v := 0];
    distr.outstanding := distr.outstanding[v := 0];
  }

  lemma InitTwice(s: Distr, v: Addr)
    ensures InitValidator(InitValidator(s, v), v) == InitValidator(s, v)
  {
  }

  /** The creation hook runs, then the same records are set explicitly: once would have done. */
  method InitializeRecords(distr: DistrKeeper, v: Addr)
    modifies distr
    ensures distr.State() == InitValidator(old(distr.State()), v)
  {
    distr.AfterValidatorCreated(v);
    SetRecords(distr, v);
    InitTwice(old(distr.State()), v);
  }

  // ----- funding -----

  const FUNDING: int := 1_000_000_000

  class BankKeeper {
    const minter: Addr
    const blocked: set<Addr>
    var supply: int
    var balances: map<Addr, int>

    constructor (minter: Addr, blocked: set<Addr>, supply: int, balances: map<Addr, int>)
      ensures this.minter == minter && this.blocked == blocked
      ensures this.supply == supply && this.balances == balances
    {
      this.minter, this.blocked, this.supply, this.balances := minter, blocked, supply, balances;
    }

    method MintCoins(amount: int)
      modifies this
      ensures supply == old(supply) + amount
      ensures balances == old(balances)[minter := At(old(balances), minter) + amount]
    {
      supply := supply + amount;
      balances := balances[minter := At(balances, minter) + amount];
    }

    method SendFromMinter(to: Addr, amount: int) returns (ok: bool)
      modifies this`balances
      ensures ok <==> to !in blocked && At(old(balances), minter) >= amount
      ensures !ok ==> balances == old(balances)
      ensures ok ==> balances == Moved(old(balances), minter, to, amount)
    {
      if to in blocked || At(balances, minter) < amount {
        return false;
      }
      balances := balances[minter := At(balances, minter) - amount];
      balances := balances[to := At(balances, to) + amount];
      ok := true;
    }

    /** Mints for one account, reads its address and sends; an error leaves the minted coins behind. */
    method FundAccount(decode: string -> Option<Addr>, account: string) returns (ok: bool)
      requires At(balances, minter) >= 0
      modifies this
      ensures ok <==> Good(decode, blocked, account)
      ensures supply == old(supply) + FUNDING
      ensures forall a :: At(balances, a) == At(old(balances), a) + Share(decode, minter, account, ok, a) * FUNDING
      ensures Sum(balances) == old(Sum(balances)) + FUNDING
    {
      SumUpdate(balances, minter, At(balances, minter) + FUNDING);
      MintCoins(FUNDING);
      var to := decode(account);
      if to.None? {
        return false;
      }
      MovedSum(balances, minter, to.value, FUNDING);
      ok := SendFromMinter(to.value, FUNDING);
    }

    /** Funds account by account; any error ends the program there. */
    method FundAccounts(decode: string -> Option<Addr>, accounts: seq<string>) returns (exited: bool)
      requires At(balances, minter) >= 0
      modifies this
      ensures var n := GoodPrefix(decode, blocked, accounts);
        && (exited <==> n < |accounts|)
        && supply == old(supply) + (n + if exited then 1 else 0) * 1_000_000_000
        && (forall a :: At(balances, a) == At(old(balances), a) + Times(decode, accounts[..n], a) * 1_000_000_000
                                         + if exited && a == minter then 1_000_000_000 else 0)
        && supply - Sum(balances) == old(supply) - old(Sum(balances))
    {
      for i := 0 to |accounts|
        invariant i <= GoodPrefix(decode, blocked, accounts)
        invariant supply == old(supply) + i * FUNDING
        invariant forall a :: At(balances, a) == At(old(balances), a) + Times(decode, accounts[..i], a) * FUNDING
        invariant supply - Sum(balances) == old(supply) - old(Sum(balances))
      {
        GoodPrefixStep(decode, blocked, accounts, i);
        TimesStep(decode, accounts, i);
        var ok := FundAccount(decode, accounts[i]);
        if !ok {
          return true;
        }
      }
      exited := false;
    }
  }

  /** How often one funding step gives a the amount: the minter keeps it when the step fails. */
  function Share(decode: string -> Option<Addr>, minter: Addr, account: string, ok: bool, a: Addr): nat {
    if ok then (if decode(account) == Some(a) then 1 else 0) else (if a == minter then 1 else 0)
  }

  /** Moving between accounts; moving to oneself changes nothing. */
  function Moved(m: map<Addr, int>, from: Addr, to: Addr, amount: int): map<Addr, int> {
    var n := m[from := At(m, from) - amount];
    n[to := At(n, to) + amount]
  }

  lemma MovedSum(m: map<Addr, int>, from: Addr, to: Addr, amount: int)
    ensures Sum(Moved(m, from, to, amount)) == Sum(m)
  {
    var n := m[from := At(m, from) - amount];
    SumUpdate(m, from, At(m, from) - amount);
    SumUpdate(n, to, At(n, to) + amount);
  }

  predicate Good(decode: string -> Option<Addr>, blocked: set<Addr>, s: string) {
    decode(s).Some? && decode(s).value !in blocked
  }

  /** How many accounts come before the first that cannot be read or may not receive. */
  function GoodPrefix(decode: string -> Option<Addr>, blocked: set<Addr>, accounts: seq<string>): (n: nat)
    ensures n <= |accounts|
  {
    if accounts == [] || !Good(decode, blocked, accounts[0]) then 0
    else 1 + GoodPrefix(decode, blocked, accounts[1..])
  }

  /** How often an address is listed, in any spelling. */
  function Times(decode: string -> Option<Addr>, accounts: seq<string>, a: Addr): nat {
    if accounts == [] then 0
    else
      var s := accounts[|accounts| - 1];
      Times(decode, accounts[..|accounts| - 1], a) + if decode(s) == Some(a) then 1 else 0
  }

  lemma TimesStep(decode: string -> Option<Addr>, accounts: seq<string>, i: nat)
    requires i < |accounts|
    ensures forall a :: Times(decode, accounts[..i + 1], a) ==
              Times(decode, accounts[..i], a) + if decode(accounts[i]) == Some(a) then 1 else 0
  {
    assert accounts[..i + 1][..i] == accounts[..i];
  }

  lemma {:induction false} GoodPrefixStep(decode: string -> Option<Addr>, blocked: set<Addr>,
                                          accounts: seq<string>, i: nat)
    requires i < |accounts| && i <= GoodPrefix(decode, blocked, accounts)
    ensures i + 1 <= GoodPrefix(decode, blocked, accounts) <==> Good(decode, blocked, accounts[i])
  {
    if i > 0 {
      GoodPrefixStep(decode, blocked, accounts[1..], i - 1);
    }
  }

  lemma {:induction false} GoodPrefixIsAll(decode: string -> Option<Addr>, blocked: set<Addr>, accounts: seq<string>)
    ensures GoodPrefix(decode, blocked, accounts) == |accounts| <==>
            forall i :: 0 <= i < |accounts| ==> Good(decode, blocked, accounts[i])
  {
    if accounts != [] {
      GoodPrefixIsAll(decode, blocked, accounts[1..]);
      assert forall i :: 0 <= i < |accounts| - 1 ==> accounts[1..][i] == accounts[i + 1];
    }
  }

  /** The accounts to fund, as cut from the flag's text. */
  function AccountsToFund(flag: string): seq<string> { Split(flag, ',') }

  /**
   A flag made by joining addresses with commas names exactly those addresses, and no flag loses
   anything by being cut.
  */
  lemma FlagRoundTrip(accounts: seq<string>, flag: string)
    ensures AccountsToFund(Join(accounts, ',')) == accounts <==> accounts != [] && Free(',', accounts)
    ensures Join(AccountsToFund(flag), ',') == flag
  {
    SplitJoinIff(accounts, ',');
    JoinSplit(flag, ',');
  }

  /**
   Leaving the flag out does not mean "nobody": the empty text is one account, so the command
   ends in an error, after one minting, unless the empty text reads as an address.
  */
  lemma EmptyFlagIsOneAccount(decode: string -> Option<Addr>, blocked: set<Addr>)
    ensures AccountsToFund("") == [""]
    ensures GoodPrefix(decode, blocked, AccountsToFund("")) == |AccountsToFund("")| <==> Good(decode, blocked, "")
  {
    GoodPrefixIsAll(decode, blocked, AccountsToFund(""));
  }
}
