/** What the replay leaves behind, validator by validator, in closed form. */
module ClosedForm {
  import opened Base
  import opened Distribution
  import opened Rebuilding

  /** How many of the delegations are aimed at v. */
  ghost function Count(dels: seq<DelKey>, v: Addr): nat {
    if dels == [] then 0
    else Count(dels[..|dels| - 1], v) + if dels[|dels| - 1].val == v then 1 else 0
  }

  /** References of period p of a validator with n delegations. */
  ghost function ClosedRefs(n: nat, p: nat): nat {
    if n == 0 then (if p == 0 then 1 else 0)
    else if p == n then 2
    else if 1 <= p < n then 1
    else 0
  }

  /** v's records are exactly those of a validator with n delegations that earned nothing. */
  ghost predicate Closed(b: Book, v: Addr, n: nat) {
    && Cur(b, v) == Current(0, n + 1)
    && forall p: nat ::
         && (RecKey(v, p) in b.history <==> ClosedRefs(n, p) > 0)
         && (RecKey(v, p) in b.history ==> b.history[RecKey(v, p)] == Historical(0, ClosedRefs(n, p)))
  }

  lemma ClosedStep(b: Book, d: DelKey, stake: nat, v: Addr, n: nat)
    requires Closed(b, v, n) && Cur(b, d.val).period >= 1
    ensures var c := Point(EndPeriod(b, d.val, 0), d, StartingInfo(Cur(b, d.val).period, stake, 0));
      Closed(c, v, if v == d.val then n + 1 else n)
  {
    var c := Point(EndPeriod(b, d.val, 0), d, StartingInfo(Cur(b, d.val).period, stake, 0));
    var n' := if v == d.val then n + 1 else n;
    forall p: nat
      ensures RecKey(v, p) in c.history <==> ClosedRefs(n', p) > 0
      ensures RecKey(v, p) in c.history ==> c.history[RecKey(v, p)] == Historical(0, ClosedRefs(n', p))
    {
      assert RecKey(v, p) in b.history <==> ClosedRefs(n, p) > 0;
      assert RecKey(v, n) in b.history <==> ClosedRefs(n, n) > 0;
    }
  }

  lemma {:induction false} RecordsClosed(k: View, dels: seq<DelKey>, v: Addr)
    requires forall d :: d in dels ==> d.val in k.order
    requires v in k.order
    ensures Closed(FreshBook(k, dels), v, Count(dels, v))
  {
    hide Closed, ClosedRefs;
    if dels == [] {
      BlankClosed(k, v);
    } else {
      var init, d := dels[..|dels| - 1], dels[|dels| - 1];
      RecordsClosed(k, init, v);
      RecordsClosed(k, init, d.val);
      ClosedPeriod(FreshBook(k, init), d.val, Count(init, d.val));
      ClosedStep(FreshBook(k, init), d, StakeOf(k, d), v, Count(init, v));
    }
  }

  lemma BlankClosed(k: View, v: Addr)
    requires v in k.order
    ensures Closed(BlankBook(k), v, 0)
  {
  }

  lemma ClosedPeriod(b: Book, v: Addr, n: nat)
    requires Closed(b, v, n)
    ensures Cur(b, v).period == n + 1
  {
  }

  lemma {:induction false} StartsClosed(k: View, dels: seq<DelKey>, i: nat)
    requires NoDup(dels) && i < |dels|
    requires forall d :: d in dels ==> d.val in k.order
    ensures dels[i] in FreshBook(k, dels).starting
    ensures FreshBook(k, dels).starting[dels[i]] ==
            StartingInfo(Count(dels[..i + 1], dels[i].val), StakeOf(k, dels[i]), 0)
  {
    hide Closed;
    var init, d := dels[..|dels| - 1], dels[|dels| - 1];
    RecordsClosed(k, init, d.val);
    ClosedPeriod(FreshBook(k, init), d.val, Count(init, d.val));
    if i < |init| {
      StartsClosed(k, init, i);
      assert init[..i + 1] == dels[..i + 1];
    } else {
      assert dels[..i + 1] == dels;
    }
  }

  // ----- only the delegations aimed at a validator matter to it -----

  /** The delegations aimed at v, in order. */
  ghost function AimedAt(dels: seq<DelKey>, v: Addr): seq<DelKey> {
    if dels == [] then []
    else AimedAt(dels[..|dels| - 1], v) + if dels[|dels| - 1].val == v then [dels[|dels| - 1]] else []
  }

  lemma {:induction false} CountIsAimed(dels: seq<DelKey>, v: Addr)
    ensures Count(dels, v) == |AimedAt(dels, v)|
  {
    if dels != [] {
      CountIsAimed(dels[..|dels| - 1], v);
    }
  }

  lemma {:induction false} AimedAreListed(dels: seq<DelKey>, v: Addr)
    ensures forall d :: d in AimedAt(dels, v) <==> d in dels && d.val == v
  {
    if dels != [] {
      AimedAreListed(dels[..|dels| - 1], v);
      assert dels == dels[..|dels| - 1] + [dels[|dels| - 1]];
    }
  }

  /** The j-th delegation aimed at v starts at period j + 1, counting from 0. */
  lemma {:induction false} AimedStarts(k: View, dels: seq<DelKey>, v: Addr, j: nat)
    requires NoDup(dels) && v in k.order && forall d :: d in dels ==> d.val in k.order
    requires j < |AimedAt(dels, v)|
    ensures var d := AimedAt(dels, v)[j];
      && d in FreshBook(k, dels).starting
      && FreshBook(k, dels).starting[d] == StartingInfo(j + 1, StakeOf(k, d), 0)
  {
    hide Closed;
    var init, last := dels[..|dels| - 1], dels[|dels| - 1];
    RecordsClosed(k, init, last.val);
    ClosedPeriod(FreshBook(k, init), last.val, Count(init, last.val));
    CountIsAimed(init, v);
    if j < |AimedAt(init, v)| {
      AimedStarts(k, init, v, j);
      AimedAreListed(init, v);
      assert AimedAt(dels, v)[j] == AimedAt(init, v)[j];
      assert AimedAt(init, v)[j] in init;
    }
  }

  /**
   Two lists that agree on the delegations aimed at v, however these are interleaved with others,
   leave the same records and the same starting periods for v.
  */
  lemma OnlyAimedMatter(k: View, l: View, dels: seq<DelKey>, dels': seq<DelKey>, v: Addr)
    requires NoDup(dels) && NoDup(dels') && v in k.order && v in l.order
    requires forall d :: d in dels ==> d.val in k.order
    requires forall d :: d in dels' ==> d.val in l.order
    requires AimedAt(dels, v) == AimedAt(dels', v)
    ensures var b, c := FreshBook(k, dels), FreshBook(l, dels');
      && Cur(b, v) == Cur(c, v)
      && (forall p: nat :: RecKey(v, p) in b.history <==> RecKey(v, p) in c.history)
      && (forall p: nat :: RecKey(v, p) in b.history ==> b.history[RecKey(v, p)] == c.history[RecKey(v, p)])
      && (forall d :: d in AimedAt(dels, v) ==>
            d in b.starting && d in c.starting && b.starting[d].period == c.starting[d].period)
  {
    hide ClosedRefs, FreshBook;
    RecordsClosed(k, dels, v);
    RecordsClosed(l, dels', v);
    CountIsAimed(dels, v);
    CountIsAimed(dels', v);
    forall d | d in AimedAt(dels, v)
      ensures var b, c := FreshBook(k, dels), FreshBook(l, dels');
        d in b.starting && d in c.starting && b.starting[d].period == c.starting[d].period
    {
      var j :| 0 <= j < |AimedAt(dels, v)| && AimedAt(dels, v)[j] == d;
      AimedStarts(k, dels, v, j);
      AimedStarts(l, dels', v, j);
    }
  }
}
