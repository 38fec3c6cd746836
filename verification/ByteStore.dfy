/**
 An ordered store of byte keys, its live iterators, and the sweeps that delete while iterating.
*/
module ByteStore {
  import opened Base

  newtype Byte = x: int | 0 <= x < 256
  type Bytes = seq<Byte>

  /** Lexicographic order. */
  predicate Less(a: Bytes, b: Bytes) {
    if b == [] then false
    else if a == [] then true
    else a[0] < b[0] || (a[0] == b[0] && Less(a[1..], b[1..]))
  }

  lemma {:induction false} LessTotal(a: Bytes, b: Bytes)
    ensures Less(a, b) || a == b || Less(b, a)
    ensures !(Less(a, b) && Less(b, a)) && !Less(a, a)
  {
    if a != [] && b != [] {
      LessTotal(a[1..], b[1..]);
      if a[0] == b[0] && a[1..] == b[1..] {
        assert a == [a[0]] + a[1..] == b;
      }
    }
    if a != [] {
      LessTotal(a[1..], a[1..]);
    }
  }

  lemma {:induction false} LessTransitive(a: Bytes, b: Bytes, c: Bytes)
    requires Less(a, b) && Less(b, c)
    ensures Less(a, c)
  {
    if a != [] && a[0] == b[0] == c[0] {
      LessTransitive(a[1..], b[1..], c[1..]);
    }
  }

  // ----- ranges and prefixes -----

  predicate InRange(k: Bytes, lo: Bytes, hi: Option<Bytes>) {
    !Less(k, lo) && (hi.None? || Less(k, hi.value))
  }

  /** The least key above all keys with this prefix; None when there is no such key. */
  function PrefixEnd(p: Bytes): Option<Bytes> {
    if p == [] then None
    else if p[|p| - 1] < 255 then Some(p[..|p| - 1] + [p[|p| - 1] + 1])
    else PrefixEnd(p[..|p| - 1])
  }

  /** The same, from the front. */
  lemma {:induction false} PrefixEndFront(p: Bytes)
    requires p != []
    ensures PrefixEnd(p) ==
      match PrefixEnd(p[1..])
      case Some(e) => Some([p[0]] + e)
      case None => if p[0] < 255 then Some([p[0] + 1]) else None
  {
    var q := p[1..];
    if |p| == 1 {
      assert q == [] && p[..0] == [];
      if p[0] < 255 {
        assert p[..0] + [p[0] + 1] == [p[0] + 1];
      }
    } else {
      var init, c := p[..|p| - 1], p[|p| - 1];
      assert init[1..] == q[..|q| - 1] && q[|q| - 1] == c;
      if c < 255 {
        assert init + [c + 1] == [p[0]] + (q[..|q| - 1] + [c + 1]);
      } else {
        PrefixEndFront(init);
      }
    }
  }

  lemma PrefixFront(p: Bytes, k: Bytes)
    requires p != []
    ensures p <= k <==> k != [] && k[0] == p[0] && p[1..] <= k[1..]
  {
    if k != [] && k[0] == p[0] && p[1..] <= k[1..] {
      assert p == [p[0]] + p[1..];
      assert k == [k[0]] + k[1..];
    }
  }

  /** Scanning from p to PrefixEnd(p) meets exactly the keys that start with p, 0xFF bytes included. */
  lemma {:induction false} RangeIsPrefix(p: Bytes, k: Bytes)
    ensures InRange(k, p, PrefixEnd(p)) <==> p <= k
  {
    if p != [] {
      PrefixEndFront(p);
      PrefixFront(p, k);
      var end := PrefixEnd(p[1..]);
      if k != [] {
        RangeIsPrefix(p[1..], k[1..]);
        if end.Some? {
          assert ([p[0]] + end.value)[1..] == end.value;
        } else if p[0] < 255 {
          var up := [p[0] + 1];
          assert up[1..] == [] && PrefixEnd(p) == Some(up);
          assert Less(k, up) <==> k[0] <= p[0];
        }
      }
    }
  }

  /** What is left when the keys of a range are deleted. */
  function Without(m: map<Bytes, Bytes>, lo: Bytes, hi: Option<Bytes>): map<Bytes, Bytes> {
    map k | k in m && !InRange(k, lo, hi) :: m[k]
  }

  /** What is left when the keys with a prefix are deleted. */
  function WithoutPrefix(m: map<Bytes, Bytes>, p: Bytes): map<Bytes, Bytes> {
    map k | k in m && !(p <= k) :: m[k]
  }

  lemma WithoutIsPrefix(m: map<Bytes, Bytes>, p: Bytes)
    ensures Without(m, p, PrefixEnd(p)) == WithoutPrefix(m, p)
  {
    forall k | k in m ensures InRange(k, p, PrefixEnd(p)) <==> p <= k {
      RangeIsPrefix(p, k);
    }
  }

  class KVStore {
    var data: map<Bytes, Bytes>

    method Set(k: Bytes, v: Bytes)
      modifies this
      ensures data == old(data)[k := v]
    {
      data := data[k := v];
    }

    method Delete(k: Bytes)
      modifies this
      ensures data == old(data) - {k}
    {
      data := data - {k};
    }

    /** The least stored key of a range that is above `after`, if any. */
    method Seek(lo: Bytes, hi: Option<Bytes>, after: Option<Bytes>) returns (r: Option<Bytes>)
      ensures r.Some? ==> r.value in data && Ahead(r.value, lo, hi, after)
      ensures forall k :: k in data && Ahead(k, lo, hi, after) ==> r.Some? && !Less(k, r.value)
    {
      r := None;
      var rest := data.Keys;
      while rest != {}
        invariant rest <= data.Keys
        invariant r.Some? ==> r.value in data && Ahead(r.value, lo, hi, after)
        invariant forall k :: k in data && k !in rest && Ahead(k, lo, hi, after) ==> r.Some? && !Less(k, r.value)
        decreases rest
      {
        var c :| c in rest;
        rest := rest - {c};
        if Ahead(c, lo, hi, after) && (r.None? || Less(c, r.value)) {
          Lower(c, r);
          r := Some(c);
        }
      }
    }

    /** Deletes the keys of a range one by one, the iterator reading the store as it now is. */
    method Sweep(lo: Bytes, hi: Option<Bytes>)
      modifies this
      ensures data == Without(old(data), lo, hi)
    {
      hide Swept, Without, InRange, Less;
      var cur := Seek(lo, hi, None);
      SweepStart(data, lo, hi, cur);
      while cur.Some?
        invariant cur.Some? ==> cur.value in data && InRange(cur.value, lo, hi)
        invariant data == Swept(old(data), lo, hi, cur)
        decreases |data|
      {
        var k := cur.value;
        ghost var before := data;
        Delete(k);
        assert |before| == |data| + 1;
        cur := Seek(lo, hi, Some(k));
        SweepStep(old(data), lo, hi, k, cur);
      }
      SweepEnd(old(data), lo, hi);
    }

    /** The same for the range that scans the keys with a prefix. */
    method SweepPrefix(p: Bytes)
      modifies this
      ensures data == WithoutPrefix(old(data), p)
    {
      Sweep(p, PrefixEnd(p));
      WithoutIsPrefix(old(data), p);
    }

    /** The greatest stored key of a range that is below `before`, if any. */
    method SeekDown(lo: Bytes, hi: Option<Bytes>, before: Option<Bytes>) returns (r: Option<Bytes>)
      ensures r.Some? ==> r.value in data && Behind(r.value, lo, hi, before)
      ensures forall k :: k in data && Behind(k, lo, hi, before) ==> r.Some? && !Less(r.value, k)
    {
      r := None;
      var rest := data.Keys;
      while rest != {}
        invariant rest <= data.Keys
        invariant r.Some? ==> r.value in data && Behind(r.value, lo, hi, before)
        invariant forall k :: k in data && k !in rest && Behind(k, lo, hi, before) ==> r.Some? && !Less(r.value, k)
        decreases rest
      {
        var c :| c in rest;
        rest := rest - {c};
        if Behind(c, lo, hi, before) && (r.None? || Less(r.value, c)) {
          Higher(c, r);
          r := Some(c);
        }
      }
    }

    /** Deletes the keys of a range one by one from the last to the first. */
    method SweepDown(lo: Bytes, hi: Option<Bytes>)
      modifies this
      ensures data == Without(old(data), lo, hi)
    {
      hide SweptDown, Without, InRange, Less;
      var cur := SeekDown(lo, hi, None);
      SweepDownStart(data, lo, hi, cur);
      while cur.Some?
        invariant cur.Some? ==> cur.value in data && InRange(cur.value, lo, hi)
        invariant data == SweptDown(old(data), lo, hi, cur)
        decreases |data|
      {
        var k := cur.value;
        ghost var earlier := data;
        Delete(k);
        assert |earlier| == |data| + 1;
        cur := SeekDown(lo, hi, Some(k));
        SweepDownStep(old(data), lo, hi, k, cur);
      }
      SweepDownEnd(old(data), lo, hi);
    }

    /** The downward sweep of the keys with a prefix removes the same keys as the upward one. */
    method SweepPrefixDown(p: Bytes)
      modifies this
      ensures data == WithoutPrefix(old(data), p)
    {
      SweepDown(p, PrefixEnd(p));
      WithoutIsPrefix(old(data), p);
    }
  }

  /** In the range and strictly after the iterator's position. */
  predicate Ahead(k: Bytes, lo: Bytes, hi: Option<Bytes>, after: Option<Bytes>) {
    InRange(k, lo, hi) && (after.None? || Less(after.value, k))
  }

  lemma Lower(c: Bytes, r: Option<Bytes>)
    requires r.Some? ==> Less(c, r.value)
    ensures !Less(c, c)
    ensures forall k :: r.Some? && !Less(k, r.value) ==> !Less(k, c)
  {
    LessTotal(c, c);
    forall k | r.Some? && !Less(k, r.value) ensures !Less(k, c) {
      if Less(k, c) {
        LessTransitive(k, c, r.value);
      }
    }
  }

  /** The store when the keys of the range below the iterator's position are gone. */
  ghost function Swept(m: map<Bytes, Bytes>, lo: Bytes, hi: Option<Bytes>, cur: Option<Bytes>): map<Bytes, Bytes> {
    map k | k in m && !(InRange(k, lo, hi) && (cur.None? || Less(k, cur.value))) :: m[k]
  }

  /** With the iterator at the first key nothing is gone yet. */
  lemma SweepStart(m: map<Bytes, Bytes>, lo: Bytes, hi: Option<Bytes>, first: Option<Bytes>)
    requires forall k :: k in m && Ahead(k, lo, hi, None) ==> first.Some? && !Less(k, first.value)
    ensures Swept(m, lo, hi, first) == m
  {
    forall k | k in m ensures k in Swept(m, lo, hi, first) {
      assert Ahead(k, lo, hi, None) <==> InRange(k, lo, hi);
    }
  }

  /** With the iterator past the last key the range is gone. */
  lemma SweepEnd(m: map<Bytes, Bytes>, lo: Bytes, hi: Option<Bytes>)
    ensures Swept(m, lo, hi, None) == Without(m, lo, hi)
  {
  }

  /** Deleting the key the iterator is at and moving to the next one. */
  lemma SweepStep(m: map<Bytes, Bytes>, lo: Bytes, hi: Option<Bytes>, k: Bytes, next: Option<Bytes>)
    requires InRange(k, lo, hi)
    requires var left := Swept(m, lo, hi, Some(k)) - {k};
      && (next.Some? ==> next.value in left && Ahead(next.value, lo, hi, Some(k)))
      && (forall j :: j in left && Ahead(j, lo, hi, Some(k)) ==> next.Some? && !Less(j, next.value))
    ensures Swept(m, lo, hi, Some(k)) - {k} == Swept(m, lo, hi, next)
  {
    var left := Swept(m, lo, hi, Some(k)) - {k};
    forall j | j in m
      ensures j in left <==> j in Swept(m, lo, hi, next)
    {
      LessTotal(j, k);
      if next.Some? && Less(j, k) {
        LessTransitive(j, k, next.value);
      }
    }
  }

  /** In the range and strictly before the iterator's position. */
  predicate Behind(k: Bytes, lo: Bytes, hi: Option<Bytes>, before: Option<Bytes>) {
    InRange(k, lo, hi) && (before.None? || Less(k, before.value))
  }

  lemma Higher(c: Bytes, r: Option<Bytes>)
    requires r.Some? ==> Less(r.value, c)
    ensures !Less(c, c)
    ensures forall k :: r.Some? && !Less(r.value, k) ==> !Less(c, k)
  {
    LessTotal(c, c);
    forall k | r.Some? && !Less(r.value, k) ensures !Less(c, k) {
      if Less(c, k) {
        LessTransitive(r.value, c, k);
      }
    }
  }

  /** The store when the keys of the range above the iterator's position are gone. */
  ghost function SweptDown(m: map<Bytes, Bytes>, lo: Bytes, hi: Option<Bytes>, cur: Option<Bytes>): map<Bytes, Bytes> {
    map k | k in m && !(InRange(k, lo, hi) && (cur.None? || Less(cur.value, k))) :: m[k]
  }

  lemma SweepDownStart(m: map<Bytes, Bytes>, lo: Bytes, hi: Option<Bytes>, last: Option<Bytes>)
    requires forall k :: k in m && Behind(k, lo, hi, None) ==> last.Some? && !Less(last.value, k)
    ensures SweptDown(m, lo, hi, last) == m
  {
    forall k | k in m ensures k in SweptDown(m, lo, hi, last) {
      assert Behind(k, lo, hi, None) <==> InRange(k, lo, hi);
    }
  }

  lemma SweepDownEnd(m: map<Bytes, Bytes>, lo: Bytes, hi: Option<Bytes>)
    ensures SweptDown(m, lo, hi, None) == Without(m, lo, hi)
  {
  }

  /** Deleting the key the iterator is at and moving down to the next one. */
  lemma SweepDownStep(m: map<Bytes, Bytes>, lo: Bytes, hi: Option<Bytes>, k: Bytes, next: Option<Bytes>)
    requires InRange(k, lo, hi)
    requires var left := SweptDown(m, lo, hi, Some(k)) - {k};
      && (next.Some? ==> next.value in left && Behind(next.value, lo, hi, Some(k)))
      && (forall j :: j in left && Behind(j, lo, hi, Some(k)) ==> next.Some? && !Less(next.value, j))
    ensures SweptDown(m, lo, hi, Some(k)) - {k} == SweptDown(m, lo, hi, next)
  {
    var left := SweptDown(m, lo, hi, Some(k)) - {k};
    forall j | j in m
      ensures j in left <==> j in SweptDown(m, lo, hi, next)
    {
      LessTotal(j, k);
      if next.Some? && Less(k, j) {
        LessTransitive(next.value, k, j);
      }
    }
  }
}
