/** The staking records the export rewrites: creation heights, unbonding heights and the jail. */
module Staking {
  import opened Base
  import opened Distribution

  datatype Status = Unbonded | Unbonding | Bonded

  datatype Validator = Validator(
    tokens: nat, shares: nat, jailed: bool, status: Status, unbondingHeight: int, unbondingTime: int)

  /** Shares are decimals scaled by PRECISION. */
  datatype Delegation = Delegation(key: DelKey, shares: nat)

  datatype RedKey = RedKey(del: Addr, src: Addr, dst: Addr)
  datatype RedEntry = RedEntry(creationHeight: int, completionTime: int, initialBalance: int, sharesDst: nat)
  datatype Redelegation = Redelegation(key: RedKey, entries: seq<RedEntry>)

  datatype UbdEntry = UbdEntry(creationHeight: int, completionTime: int, initialBalance: int, balance: int)
  datatype UnbondingDelegation = UnbondingDelegation(key: DelKey, entries: seq<UbdEntry>)

  /** `order` lists the validators, and `dels` the delegations, as the store iterates over them. */
  datatype Stores = Stores(
    order: seq<Addr>,
    validators: map<Addr, Validator>,
    dels: seq<Delegation>,
    reds: map<RedKey, Redelegation>,
    ubds: map<DelKey, UnbondingDelegation>)

  /** Every record is stored under its own key, and `order` lists every validator once. */
  ghost predicate Keyed(s: Stores) {
    && NoDup(s.order)
    && (forall v :: v in s.order <==> v in s.validators)
    && (forall r :: r in s.reds ==> s.reds[r].key == r)
    && (forall u :: u in s.ubds ==> s.ubds[u].key == u)
  }

  // ----- what distribution sees -----

  /** The truncated token value of shares. A validator that has delegations has shares. */
  function TokensFromShares(v: Validator, shares: nat): nat {
    if v.shares == 0 then 0 else shares * v.tokens * PRECISION / v.shares
  }

  /** Rounds a decimal with twice the precision, halves to even. */
  function Rounded(q: nat): nat {
    var n, r := q / PRECISION, q % PRECISION;
    if 2 * r < PRECISION then n else if 2 * r > PRECISION then n + 1 else n + n % 2
  }

  /** The rounded token value of shares. */
  function WorthOfShares(v: Validator, shares: nat): nat {
    if v.shares == 0 then 0 else Rounded(shares * v.tokens * PRECISION * PRECISION / v.shares)
  }

  function DelKeys(dels: seq<Delegation>): (ks: seq<DelKey>)
    ensures |ks| == |dels| && forall i :: 0 <= i < |ks| ==> ks[i] == dels[i].key
  {
    seq(|dels|, i requires 0 <= i < |dels| => dels[i].key)
  }

  function Stakes(validators: map<Addr, Validator>, dels: seq<Delegation>): map<DelKey, nat> {
    if dels == [] then map[]
    else
      var d := dels[|dels| - 1];
      Stakes(validators, dels[..|dels| - 1])
        [d.key := if d.key.val in validators then TokensFromShares(validators[d.key.val], d.shares) else 0]
  }

  function Worths(validators: map<Addr, Validator>, dels: seq<Delegation>): map<DelKey, nat> {
    if dels == [] then map[]
    else
      var d := dels[|dels| - 1];
      Worths(validators, dels[..|dels| - 1])
        [d.key := if d.key.val in validators then WorthOfShares(validators[d.key.val], d.shares) else 0]
  }

  function ViewOf(s: Stores): View {
    View(s.order, map v | v in s.validators :: s.validators[v].tokens, DelKeys(s.dels),
         Stakes(s.validators, s.dels), Worths(s.validators, s.dels))
  }

  // ----- zero heights -----

  function ZeroRedEntries(es: seq<RedEntry>): (r: seq<RedEntry>)
    ensures |r| == |es|
    ensures forall i :: 0 <= i < |es| ==> r[i] == es[i].(creationHeight := 0)
  {
    seq(|es|, i requires 0 <= i < |es| => es[i].(creationHeight := 0))
  }

  function ZeroUbdEntries(es: seq<UbdEntry>): (r: seq<UbdEntry>)
    ensures |r| == |es|
    ensures forall i :: 0 <= i < |es| ==> r[i] == es[i].(creationHeight := 0)
  {
    seq(|es|, i requires 0 <= i < |es| => es[i].(creationHeight := 0))
  }

  function ZeroReds(m: map<RedKey, Redelegation>): map<RedKey, Redelegation> {
    map r | r in m :: m[r].(entries := ZeroRedEntries(m[r].entries))
  }

  function ZeroUbds(m: map<DelKey, UnbondingDelegation>): map<DelKey, UnbondingDelegation> {
    map u | u in m :: m[u].(entries := ZeroUbdEntries(m[u].entries))
  }

  // ----- the jail allow-list -----

  /** Operator addresses and their text. */
  datatype Codec = Codec(decode: string -> Option<Addr>, encode: Addr -> string)

  /** Text made from an address reads back as that address; other texts may read as it too. */
  ghost predicate Lawful(c: Codec) {
    forall a: Addr :: c.decode(c.encode(a)) == Some(a)
  }

  predicate Readable(c: Codec, allowed: seq<string>) {
    forall i :: 0 <= i < |allowed| ==> c.decode(allowed[i]).Some?
  }

  function ResetValidator(c: Codec, allowed: seq<string>, v: Addr, val: Validator): Validator {
    val.(unbondingHeight := 0, jailed := val.jailed || (allowed != [] && c.encode(v) !in allowed))
  }

  function ResetValidators(c: Codec, allowed: seq<string>, m: map<Addr, Validator>): map<Addr, Validator> {
    map v | v in m :: ResetValidator(c, allowed, v, m[v])
  }

  /** The staking part of the preparation. */
  function ZeroHeightState(c: Codec, allowed: seq<string>, s: Stores): Stores {
    s.(validators := ResetValidators(c, allowed, s.validators), reds := ZeroReds(s.reds), ubds := ZeroUbds(s.ubds))
  }

  // ----- properties -----

  lemma DivideBelow(q: nat, a: nat, b: nat)
    requires b > 0 && q * b <= a
    ensures q <= a / b
  {
    var n := a / b + 1;
    assert a < n * b by {
      assert a == a / b * b + a % b;
      assert n * b == a / b * b + b;
    }
    LessFactor(q, n, b);
  }

  lemma LessFactor(q: int, n: int, b: nat)
    requires b > 0 && q * b < n * b
    ensures q < n
  {
    assert (n - q) * b == n * b - q * b;
  }

  lemma DivideUp(a: nat, b: nat)
    requires b > 0
    ensures a / b * b <= a
  {
  }

  lemma ScaleBoth(q: nat, b: nat, a: nat)
    requires q * b <= a
    ensures q * PRECISION * b <= a * PRECISION
  {
    assert q * PRECISION * b == (q * b) * PRECISION;
  }

  /** The truncated value of shares is at most the rounded one. */
  lemma TruncatedAtMostRounded(v: Validator, shares: nat)
    ensures TokensFromShares(v, shares) <= WorthOfShares(v, shares)
  {
    if v.shares > 0 {
      var a := shares * v.tokens * PRECISION;
      var q := a / v.shares;
      DivideUp(a, v.shares);
      ScaleBoth(q, v.shares, a);
      DivideBelow(q * PRECISION, a * PRECISION, v.shares);
      DivideBelow(q, a * PRECISION / v.shares, PRECISION);
    }
  }

  /** Up to less than one unit the stake is the shares' part of the tokens; all shares hold all tokens. */
  lemma StakeIsShare(v: Validator, shares: nat)
    requires v.shares > 0
    ensures 0 <= shares * v.tokens * PRECISION - TokensFromShares(v, shares) * v.shares < v.shares
    ensures shares == v.shares ==> TokensFromShares(v, shares) == v.tokens * PRECISION
  {
    var a := shares * v.tokens * PRECISION;
    DivisionRest(a, v.shares);
    if shares == v.shares {
      assert a == v.tokens * PRECISION * v.shares;
      QuotientIs(a, v.shares, v.tokens * PRECISION);
    }
  }

  lemma DivisionRest(a: nat, b: nat)
    requires b > 0
    ensures 0 <= a - a / b * b < b
  {
  }

  lemma QuotientIs(a: nat, b: nat, q: nat)
    requires b > 0 && a == q * b
    ensures a / b == q
  {
    DivisionRest(a, b);
    assert (q - a / b) * b == a - a / b * b;
    LessFactor(q - a / b, 1, b);
    LessFactor(-1, q - a / b, b);
  }

  /** The nearest whole number; of two that are equally near, the even one. */
  lemma RoundedIsNearest(q: nat)
    ensures -PRECISION <= 2 * (Rounded(q) * PRECISION - q) <= PRECISION
    ensures Rounded(q) * PRECISION - q == PRECISION / 2 || q - Rounded(q) * PRECISION == PRECISION / 2 ==>
              Rounded(q) % 2 == 0
  {
  }

  /** The worth is the shares' part of the tokens up to half a unit, rounded twice. */
  lemma WorthIsShare(v: Validator, shares: nat)
    requires v.shares > 0
    ensures -(PRECISION + 2) * v.shares
              < 2 * PRECISION * (WorthOfShares(v, shares) * v.shares - shares * v.tokens * PRECISION)
              <= PRECISION * v.shares
  {
    hide Rounded;
    var a, b := shares * v.tokens * PRECISION, v.shares;
    var q := a * PRECISION / b;
    var w := Rounded(q);
    DivisionRest(a * PRECISION, b);
    RoundedIsNearest(q);
    Scaled(2 * (w * PRECISION - q), PRECISION, b);
    assert 2 * PRECISION * (w * b - a) == 2 * (w * PRECISION - q) * b + 2 * (q * b - a * PRECISION);
  }

  lemma Scaled(x: int, bound: int, b: nat)
    requires -bound <= x <= bound
    ensures -bound * b <= x * b <= bound * b
  {
    assert (bound - x) * b >= 0 && (bound + x) * b >= 0;
  }

  /** What distribution reads of a delegation is what its own record and its validator's make of it. */
  lemma {:induction false} ReadsOf(m: map<Addr, Validator>, dels: seq<Delegation>, i: nat)
    requires NoDup(DelKeys(dels)) && i < |dels| && dels[i].key.val in m
    ensures dels[i].key in Stakes(m, dels) && dels[i].key in Worths(m, dels)
    ensures Stakes(m, dels)[dels[i].key] == TokensFromShares(m[dels[i].key.val], dels[i].shares)
    ensures Worths(m, dels)[dels[i].key] == WorthOfShares(m[dels[i].key.val], dels[i].shares)
    decreases |dels|
  {
    hide TokensFromShares, WorthOfShares;
    var n := |dels| - 1;
    if i < n {
      assert DelKeys(dels)[i] != DelKeys(dels)[n];
      forall j, l | 0 <= j < l < n ensures DelKeys(dels[..n])[j] != DelKeys(dels[..n])[l] {
        assert DelKeys(dels)[j] != DelKeys(dels)[l];
      }
      ReadsOf(m, dels[..n], i);
    }
  }

  /** So it is for every delegation that distribution sees. */
  lemma {:induction false} StakesAtMostWorths(m: map<Addr, Validator>, dels: seq<Delegation>)
    ensures Stakes(m, dels).Keys == Worths(m, dels).Keys
    ensures forall d :: d in Stakes(m, dels) ==> Stakes(m, dels)[d] <= Worths(m, dels)[d]
  {
    if dels != [] {
      var d := dels[|dels| - 1];
      StakesAtMostWorths(m, dels[..|dels| - 1]);
      if d.key.val in m {
        TruncatedAtMostRounded(m[d.key.val], d.shares);
      }
    }
  }

  lemma {:induction false} StakesSame(m: map<Addr, Validator>, n: map<Addr, Validator>, dels: seq<Delegation>)
    requires m.Keys == n.Keys
    requires forall v :: v in m ==> n[v].tokens == m[v].tokens && n[v].shares == m[v].shares
    ensures Stakes(n, dels) == Stakes(m, dels) && Worths(n, dels) == Worths(m, dels)
  {
    if dels != [] {
      StakesSame(m, n, dels[..|dels| - 1]);
    }
  }

  /** The staking part leaves everything distribution depends on as it was. */
  lemma ViewUnchanged(c: Codec, allowed: seq<string>, s: Stores)
    ensures ViewOf(ZeroHeightState(c, allowed, s)) == ViewOf(s)
  {
    StakesSame(s.validators, ResetValidators(c, allowed, s.validators), s.dels);
  }

  /** From s to t every creation height is 0, and nothing else of the entries has changed. */
  ghost predicate CreationHeightsZeroed(s: Stores, t: Stores) {
    && t.reds.Keys == s.reds.Keys && t.ubds.Keys == s.ubds.Keys
    && (forall r :: r in s.reds ==>
          t.reds[r].key == s.reds[r].key && |t.reds[r].entries| == |s.reds[r].entries|)
    && (forall r, i :: r in s.reds && 0 <= i < |s.reds[r].entries| ==>
          var e, e' := s.reds[r].entries[i], t.reds[r].entries[i];
          && e'.creationHeight == 0 && e'.completionTime == e.completionTime
          && e'.initialBalance == e.initialBalance && e'.sharesDst == e.sharesDst)
    && (forall u :: u in s.ubds ==>
          t.ubds[u].key == s.ubds[u].key && |t.ubds[u].entries| == |s.ubds[u].entries|)
    && (forall u, i :: u in s.ubds && 0 <= i < |s.ubds[u].entries| ==>
          var e, e' := s.ubds[u].entries[i], t.ubds[u].entries[i];
          && e'.creationHeight == 0 && e'.completionTime == e.completionTime
          && e'.initialBalance == e.initialBalance && e'.balance == e.balance)
  }

  /**
   From s to t every validator's unbonding height is 0; those that a non-empty list does not name
   are jailed, and the others stay as they were; nothing else of the validators has changed.
  */
  ghost predicate ValidatorsReset(c: Codec, allowed: seq<string>, s: Stores, t: Stores) {
    && t.order == s.order && t.validators.Keys == s.validators.Keys && t.dels == s.dels
    && forall v :: v in s.validators ==>
         var x, y := s.validators[v], t.validators[v];
         && y.unbondingHeight == 0
         && y.tokens == x.tokens && y.shares == x.shares && y.status == x.status && y.unbondingTime == x.unbondingTime
         && (if |allowed| > 0 && c.encode(v) !in allowed then y.jailed else y.jailed == x.jailed)
  }

  /** The zero-height closure with its frame, record by record. */
  lemma ZeroHeightRecords(c: Codec, allowed: seq<string>, s: Stores)
    ensures CreationHeightsZeroed(s, ZeroHeightState(c, allowed, s))
    ensures ValidatorsReset(c, allowed, s, ZeroHeightState(c, allowed, s))
  {
  }

  /** Rewriting heights and jailing a second time changes nothing. */
  lemma ZeroHeightIdempotent(c: Codec, allowed: seq<string>, s: Stores)
    ensures ZeroHeightState(c, allowed, ZeroHeightState(c, allowed, s)) == ZeroHeightState(c, allowed, s)
  {
    var t := ZeroHeightState(c, allowed, s);
    assert ZeroHeightState(c, allowed, t).validators == t.validators;
    forall r | r in t.reds ensures ZeroRedEntries(t.reds[r].entries) == t.reds[r].entries {}
    forall u | u in t.ubds ensures ZeroUbdEntries(t.ubds[u].entries) == t.ubds[u].entries {}
    assert ZeroReds(t.reds) == t.reds;
    assert ZeroUbds(t.ubds) == t.ubds;
  }

  /** Some entry of the list reads as this address. */
  ghost predicate Listed(c: Codec, allowed: seq<string>, v: Addr) {
    exists i :: 0 <= i < |allowed| && c.decode(allowed[i]) == Some(v)
  }

  /** What an allow-list of addresses means: outsiders are jailed, nobody else is touched. */
  ghost predicate JailsOutsiders(c: Codec, allowed: seq<string>, m: map<Addr, Validator>) {
    forall v :: v in m ==>
      (ResetValidators(c, allowed, m)[v].jailed <==> m[v].jailed || (allowed != [] && !Listed(c, allowed, v)))
  }

  /**
   The list is compared as text. It jails exactly the outsiders if and only if every free
   validator that is listed in some spelling is also listed in its own.
  */
  lemma JailsOutsidersIff(c: Codec, allowed: seq<string>, m: map<Addr, Validator>)
    requires Lawful(c)
    ensures JailsOutsiders(c, allowed, m) <==>
            forall i, v :: 0 <= i < |allowed| && v in m && !m[v].jailed && c.decode(allowed[i]) == Some(v) ==>
              c.encode(v) in allowed
  {
    forall v | v in m && c.encode(v) in allowed ensures Listed(c, allowed, v) {
      var i :| 0 <= i < |allowed| && allowed[i] == c.encode(v);
      assert c.decode(allowed[i]) == Some(v);
    }
    if JailsOutsiders(c, allowed, m) {
      forall i, v | 0 <= i < |allowed| && v in m && !m[v].jailed && c.decode(allowed[i]) == Some(v)
        ensures c.encode(v) in allowed
      {
        assert Listed(c, allowed, v);
        assert !ResetValidators(c, allowed, m)[v].jailed;
      }
    }
  }

  /** A lawful codec that also reads a capital prefix, as bech32 reads all-capital text. */
  function TwoSpellings(): Codec {
    Codec(s => if |s| > 0 && (s[0] == 'v' || s[0] == 'V') then Some(s[1..]) else None, a => "v" + a)
  }

  /** A validator listed in another spelling of its address is jailed. */
  lemma OtherSpellingJails()
    ensures Lawful(TwoSpellings()) && Readable(TwoSpellings(), ["Vx"])
    ensures !JailsOutsiders(TwoSpellings(), ["Vx"], map["x" := Validator(1, 1, false, Bonded, 5, 0)])
  {
    var c, allowed := TwoSpellings(), ["Vx"];
    forall a: Addr ensures c.decode(c.encode(a)) == Some(a) {
      assert ("v" + a)[1..] == a;
    }
    assert "Vx"[1..] == "x";
    assert c.decode(allowed[0]) == Some("x");
    assert Listed(c, allowed, "x");
    assert c.encode("x") == "vx" != "Vx";
  }
}
