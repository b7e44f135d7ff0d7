/** Identifiers, instants and the counting vocabulary shared by both halves of the model. */
module Common {

  /** Primary keys. Only equality of two keys is ever used. */
  type Uuid = nat

  /** Seconds on one clock that never runs backwards. */
  type Time = int

  datatype Option<+T> = None | Some(value: T)

  /** How many entries of a table satisfy `p`. */
  ghost function CountValues<K, V>(m: map<K, V>, p: V -> bool): nat {
    |set k | k in m && p(m[k])|
  }

  /** Adding or overwriting one entry moves the count by that entry alone. */
  lemma CountAfterUpdate<K, V>(m: map<K, V>, k: K, v: V, p: V -> bool)
    ensures CountValues(m[k := v], p)
         == CountValues(m, p)
            - (if k in m && p(m[k]) then 1 else 0)
            + (if p(v) then 1 else 0)
  {
    var m' := m[k := v];
    var rest := set x | x in m && x != k && p(m[x]);
    CountWithout(m, k, p, rest);
    assert rest == set x | x in m' && x != k && p(m'[x]);
    CountWithout(m', k, p, rest);
  }

  lemma CountWithout<K, V>(m: map<K, V>, k: K, p: V -> bool, rest: set<K>)
    requires rest == set x | x in m && x != k && p(m[x])
    ensures CountValues(m, p) == |rest| + (if k in m && p(m[k]) then 1 else 0)
  {
    var all := set x | x in m && p(m[x]);
    assert all == if k in m && p(m[k]) then rest + {k} else rest;
  }

  /** Every entry satisfies `p` or does not. */
  lemma CountSplits<K, V>(m: map<K, V>, p: V -> bool, q: V -> bool)
    requires forall k | k in m :: q(m[k]) <==> !p(m[k])
    ensures |m| == CountValues(m, p) + CountValues(m, q)
  {
    var yes := set k | k in m && p(m[k]);
    var no := set k | k in m && q(m[k]);
    assert yes + no == m.Keys;
    assert |yes + no| == |yes| + |no|;
    assert |m| == |m.Keys|;
  }

  lemma CountNone<K, V>(m: map<K, V>, p: V -> bool)
    requires forall k | k in m :: !p(m[k])
    ensures CountValues(m, p) == 0
  {
    assert (set k | k in m && p(m[k])) == {};
  }

  /** How many entries of a list satisfy `p`. */
  ghost function CountIn<T>(xs: seq<T>, p: T -> bool): nat {
    if xs == [] then 0
    else CountIn(xs[..|xs| - 1], p) + (if p(xs[|xs| - 1]) then 1 else 0)
  }

  lemma CountAfterAppend<T>(xs: seq<T>, x: T, p: T -> bool)
    ensures CountIn(xs + [x], p) == CountIn(xs, p) + (if p(x) then 1 else 0)
  {
    assert (xs + [x])[..|xs|] == xs;
  }
}
