/** A JavaScript object used as a dictionary (`{ [key: string]: V }`), as the sequence of
    its own properties in iteration order. Property names are distinct, so a table is
    well formed when its key list has no repetition. */
module Tables {
  import opened Results

  type Table<V> = seq<(string, V)>

  /** `Object.keys(t)`, in iteration order. */
  function Keys<V>(t: Table<V>): (ks: seq<string>)
    ensures |ks| == |t|
    ensures forall i :: 0 <= i < |t| ==> ks[i] == t[i].0
  {
    seq(|t|, i requires 0 <= i < |t| => t[i].0)
  }

  predicate Distinct(ks: seq<string>) {
    forall i, j :: 0 <= i < j < |ks| ==> ks[i] != ks[j]
  }

  predicate WellFormed<V>(t: Table<V>) {
    Distinct(Keys(t))
  }

  /** `t[k]`, with `None` standing for `undefined`. */
  function Get<V>(t: Table<V>, k: string): (r: Option<V>)
    ensures r.Some? <==> k in Keys(t)
    ensures r.Some? ==> exists i :: 0 <= i < |t| && t[i] == (k, r.value)
    decreases |t|
  {
    if |t| == 0 then None
    else if t[0].0 == k then Some(t[0].1)
    else
      var r := Get(t[1..], k);
      assert r.Some? ==> exists i :: 0 <= i < |t| - 1 && t[1..][i] == (k, r.value);
      assert Keys(t) == [t[0].0] + Keys(t[1..]);
      r
  }

  lemma KeysCons<V>(h: (string, V), t: Table<V>)
    ensures Keys([h] + t) == [h.0] + Keys(t)
  {
  }

  lemma GetCons<V>(h: (string, V), t: Table<V>)
    ensures forall x :: Get([h] + t, x) == if h.0 == x then Some(h.1) else Get(t, x)
  {
    assert ([h] + t)[1..] == t;
  }

  lemma GetConsAt<V>(h: (string, V), t: Table<V>, x: string)
    ensures Get([h] + t, x) == if h.0 == x then Some(h.1) else Get(t, x)
  {
    assert ([h] + t)[1..] == t;
  }

  /** In a well-formed table, looking up the key at position `i` finds the value at `i`. */
  lemma {:induction false} GetAt<V>(t: Table<V>, i: nat)
    requires WellFormed(t) && i < |t|
    ensures Get(t, t[i].0) == Some(t[i].1)
    decreases i
  {
    if i > 0 {
      assert Keys(t[1..]) == Keys(t)[1..];
      GetAt(t[1..], i - 1);
      assert t[0].0 != t[i].0;
    }
  }

  /** `t[k] = v`: an existing property keeps its position, a new one goes last. */
  function Put<V>(t: Table<V>, k: string, v: V): (r: Table<V>)
    requires WellFormed(t)
    ensures WellFormed(r)
    ensures k in Keys(t) ==> Keys(r) == Keys(t)
    ensures k !in Keys(t) ==> Keys(r) == Keys(t) + [k]
    ensures forall x :: Get(r, x) == if x == k then Some(v) else Get(t, x)
    decreases |t|
  {
    if |t| == 0 then [(k, v)]
    else if t[0].0 == k then
      PutAtHead(t, v);
      [(k, v)] + t[1..]
    else
      var rest := Put(t[1..], k, v);
      PutBehindHead(t, k, v, rest);
      [t[0]] + rest
  }

  /** Overwriting the first property keeps every key in place. */
  lemma PutAtHead<V>(t: Table<V>, v: V)
    requires WellFormed(t) && |t| > 0
    ensures var r := [(t[0].0, v)] + t[1..];
      && WellFormed(r) && Keys(r) == Keys(t)
      && forall x :: Get(r, x) == if x == t[0].0 then Some(v) else Get(t, x)
  {
    var tail := t[1..];
    assert t == [t[0]] + tail;
    KeysCons(t[0], tail);
    KeysCons((t[0].0, v), tail);
    forall x
      ensures Get([(t[0].0, v)] + tail, x) == if x == t[0].0 then Some(v) else Get(t, x)
    {
      GetConsAt((t[0].0, v), tail, x);
      GetConsAt(t[0], tail, x);
    }
  }

  /** Writing behind a first property whose key differs leaves that property first. */
  lemma PutBehindHead<V>(t: Table<V>, k: string, v: V, rest: Table<V>)
    requires WellFormed(t) && |t| > 0 && t[0].0 != k
    requires WellFormed(rest)
    requires k in Keys(t[1..]) ==> Keys(rest) == Keys(t[1..])
    requires k !in Keys(t[1..]) ==> Keys(rest) == Keys(t[1..]) + [k]
    requires forall x :: Get(rest, x) == if x == k then Some(v) else Get(t[1..], x)
    ensures WellFormed([t[0]] + rest)
    ensures k in Keys(t) ==> Keys([t[0]] + rest) == Keys(t)
    ensures k !in Keys(t) ==> Keys([t[0]] + rest) == Keys(t) + [k]
    ensures forall x :: Get([t[0]] + rest, x) == if x == k then Some(v) else Get(t, x)
  {
    var tail := t[1..];
    assert t == [t[0]] + tail;
    KeysCons(t[0], tail);
    KeysCons(t[0], rest);
    DistinctCons(t[0].0, Keys(tail));
    assert t[0].0 !in Keys(rest);
    DistinctCons(t[0].0, Keys(rest));
    GetCons(t[0], rest);
    GetCons(t[0], tail);
  }

  lemma DistinctCons(x: string, s: seq<string>)
    ensures Distinct([x] + s) <==> x !in s && Distinct(s)
  {
    var l := [x] + s;
    if Distinct(l) {
      forall i, j | 0 <= i < j < |s|
        ensures s[i] != s[j]
      {
        assert l[i + 1] == s[i] && l[j + 1] == s[j];
      }
      forall j | 0 <= j < |s|
        ensures s[j] != x
      {
        assert l[0] == x && l[j + 1] == s[j];
      }
    }
    if x !in s && Distinct(s) {
      forall i, j | 0 <= i < j < |l|
        ensures l[i] != l[j]
      {
        assert l[j] == s[j - 1];
        if i > 0 {
          assert l[i] == s[i - 1];
        }
      }
    }
  }

  /** `{ ...a, ...b }` (equivalently `Object.assign({}, a, b)`): every property of `b`
      written over a copy of `a`, in `b`'s order. */
  function Spread<V>(a: Table<V>, b: Table<V>): (r: Table<V>)
    requires WellFormed(a) && WellFormed(b)
    ensures WellFormed(r)
    ensures forall x :: Get(r, x) == if x in Keys(b) then Get(b, x) else Get(a, x)
    ensures |a| <= |r| && Keys(r)[..|a|] == Keys(a)
    decreases |b|
  {
    if |b| == 0 then a
    else
      var a' := Put(a, b[0].0, b[0].1);
      var r := Spread(a', b[1..]);
      SpreadStep(a, b, r);
      r
  }

  /** Spreading `b` is writing its first property, then spreading the rest of it. */
  lemma SpreadStep<V>(a: Table<V>, b: Table<V>, r: Table<V>)
    requires WellFormed(a) && WellFormed(b) && |b| > 0
    requires |Put(a, b[0].0, b[0].1)| <= |r|
    requires Keys(r)[..|Put(a, b[0].0, b[0].1)|] == Keys(Put(a, b[0].0, b[0].1))
    requires forall x :: Get(r, x) == if x in Keys(b[1..]) then Get(b[1..], x) else Get(Put(a, b[0].0, b[0].1), x)
    ensures |a| <= |r| && Keys(r)[..|a|] == Keys(a)
    ensures forall x :: Get(r, x) == if x in Keys(b) then Get(b, x) else Get(a, x)
  {
    SpreadStepKeys(a, b[0].0, b[0].1, r);
    var tail := b[1..];
    var a' := Put(a, b[0].0, b[0].1);
    assert b == [b[0]] + tail;
    KeysCons(b[0], tail);
    DistinctCons(b[0].0, Keys(tail));
    forall x
      ensures Get(r, x) == if x in Keys(b) then Get(b, x) else Get(a, x)
    {
      GetConsAt(b[0], tail, x);
      if x !in Keys(tail) {
        assert Get(r, x) == Get(a', x);
      }
    }
  }

  lemma SpreadStepKeys<V>(a: Table<V>, k: string, v: V, r: Table<V>)
    requires WellFormed(a)
    requires |Put(a, k, v)| <= |r| && Keys(r)[..|Put(a, k, v)|] == Keys(Put(a, k, v))
    ensures |a| <= |r| && Keys(r)[..|a|] == Keys(a)
  {
    var a' := Put(a, k, v);
    assert Keys(a')[..|a|] == Keys(a);
    assert Keys(r)[..|a|] == Keys(r)[..|a'|][..|a|];
  }

  /** The spread object has the properties of both operands. */
  lemma SpreadKeys<V>(a: Table<V>, b: Table<V>)
    requires WellFormed(a) && WellFormed(b)
    ensures forall x :: x in Keys(Spread(a, b)) <==> x in Keys(a) || x in Keys(b)
  {
  }

  /** A sequence without repetition holds each of its elements exactly once. */
  lemma {:induction false} DistinctCount(s: seq<string>, x: string)
    requires Distinct(s)
    ensures multiset(s)[x] == if x in s then 1 else 0
    decreases |s|
  {
    if |s| > 0 {
      assert s == [s[0]] + s[1..];
      DistinctCount(s[1..], x);
    }
  }

  /** For key lists (which never repeat), holding the same keys as a multiset and as a
      set are the same thing. */
  lemma SameKeysIff(a: seq<string>, b: seq<string>)
    requires Distinct(a) && Distinct(b)
    ensures multiset(a) == multiset(b) <==> (forall x :: x in a <==> x in b)
  {
    if multiset(a) == multiset(b) {
      forall x
        ensures x in a <==> x in b
      {
        assert x in a <==> x in multiset(a);
        assert x in b <==> x in multiset(b);
      }
    }
    if forall x :: x in a <==> x in b {
      forall x
        ensures multiset(a)[x] == multiset(b)[x]
      {
        DistinctCount(a, x);
        DistinctCount(b, x);
      }
    }
  }
}
