/** A JavaScript object used as a dictionary (`Record<string, V>`): its keys in
    insertion order, which is the order `Object.keys`, `Object.values` and
    `Object.entries` report, and the value of each key. */
module Dicts {
  import opened Seqs
  import opened Sorting

  datatype Dict<V> = Dict(keys: seq<string>, vals: map<string, V>)

  ghost predicate Valid<V>(d: Dict<V>) {
    && Distinct(d.keys)
    && (forall k :: k in d.vals <==> k in d.keys)
  }

  /** `{}` */
  function Empty<V>(): (d: Dict<V>)
    ensures Valid(d)
  {
    Dict([], map[])
  }

  /** `Object.values(d)`. */
  function Values<V>(d: Dict<V>): (r: seq<V>)
    requires Valid(d)
    ensures |r| == |d.keys|
    ensures forall i :: 0 <= i < |r| ==> r[i] == d.vals[d.keys[i]]
  {
    seq(|d.keys|, i requires 0 <= i < |d.keys| => d.vals[d.keys[i]])
  }

  /** `Object.entries(d)`. */
  function Entries<V>(d: Dict<V>): (r: seq<(string, V)>)
    requires Valid(d)
    ensures |r| == |d.keys|
    ensures forall i :: 0 <= i < |r| ==> r[i] == (d.keys[i], d.vals[d.keys[i]])
  {
    seq(|d.keys|, i requires 0 <= i < |d.keys| => (d.keys[i], d.vals[d.keys[i]]))
  }

  /** The value stored under `k`, or `init` when `k` is absent: the
      `if (!d[k]) d[k] = init;` step of the accumulations. */
  function Current<V>(d: Dict<V>, k: string, init: V): V {
    if k in d.vals then d.vals[k] else init
  }

  /** `if (!d[k]) d[k] = init;` followed by `d[k] = f(d[k])`. A new key goes
      last in insertion order. */
  function Upsert<V>(d: Dict<V>, k: string, init: V, f: V -> V): (r: Dict<V>)
    ensures Valid(d) ==> Valid(r)
    ensures r.keys == if k in d.vals then d.keys else d.keys + [k]
    ensures r.vals == d.vals[k := f(Current(d, k, init))]
  {
    var r := Dict(if k in d.vals then d.keys else d.keys + [k], d.vals[k := f(Current(d, k, init))]);
    assert Valid(d) && k !in d.vals ==> forall i :: 0 <= i < |d.keys| ==> d.keys[i] != k;
    r
  }

  /** `Upsert` is the two-step update the source writes: store `init` under a
      missing key, then overwrite the key's value with `f` of it. */
  lemma UpsertInTwoSteps<V>(d: Dict<V>, k: string, init: V, f: V -> V)
    ensures var e := if k in d.vals then d else Dict(d.keys + [k], d.vals[k := init]);
            Upsert(d, k, init, f) == Dict(e.keys, e.vals[k := f(e.vals[k])])
  {
  }

  /** Replacing one term of a sum. */
  lemma SumByReplace<V>(v: seq<V>, w: seq<V>, i: nat, g: V -> int)
    requires |v| == |w| && i < |v|
    requires forall j :: 0 <= j < |v| && j != i ==> v[j] == w[j]
    ensures SumBy(w, g) == SumBy(v, g) + g(w[i]) - g(v[i])
  {
    assert w[..i] + w[i + 1..] == v[..i] + v[i + 1..];
    SumByRemove(v, i, g);
    SumByRemove(w, i, g);
  }

  /** How a sum over `Object.values` changes under one `Upsert`. */
  lemma UpsertSum<V>(d: Dict<V>, k: string, init: V, f: V -> V, g: V -> int)
    requires Valid(d)
    ensures SumBy(Values(Upsert(d, k, init, f)), g)
         == SumBy(Values(d), g) + g(f(Current(d, k, init))) - (if k in d.vals then g(d.vals[k]) else 0)
  {
    if k in d.vals {
      UpsertSumPresent(d, k, init, f, g);
    } else {
      UpsertSumAbsent(d, k, init, f, g);
    }
  }

  lemma UpsertSumPresent<V>(d: Dict<V>, k: string, init: V, f: V -> V, g: V -> int)
    requires Valid(d) && k in d.vals
    ensures SumBy(Values(Upsert(d, k, init, f)), g) == SumBy(Values(d), g) + g(f(d.vals[k])) - g(d.vals[k])
  {
    var r := Upsert(d, k, init, f);
    var v, w := Values(d), Values(r);
    var i := IndexOf(d.keys, k);
    assert r.keys == d.keys;
    forall j | 0 <= j < |v| && j != i ensures v[j] == w[j] {
      assert d.keys[j] != k;
    }
    SumByReplace(v, w, i, g);
  }

  lemma UpsertSumAbsent<V>(d: Dict<V>, k: string, init: V, f: V -> V, g: V -> int)
    requires Valid(d) && k !in d.vals
    ensures SumBy(Values(Upsert(d, k, init, f)), g) == SumBy(Values(d), g) + g(f(init))
  {
    var r := Upsert(d, k, init, f);
    var v, w := Values(d), Values(r);
    var x := f(init);
    assert r.keys == d.keys + [k];
    assert w == v + [x];
    SumByAppend(v, [x], g);
    SumBySingle(x, g);
  }

  /** `d[k] = (d[k] || 0) + 1`: one more occurrence of `k`. */
  function Bump(d: Dict<nat>, k: string): (r: Dict<nat>)
    ensures Valid(d) ==> Valid(r)
    ensures r.keys == if k in d.vals then d.keys else d.keys + [k]
    ensures r.vals == d.vals[k := Current(d, k, 0) + 1]
  {
    Upsert(d, k, 0, (n: nat) => n + 1)
  }

  /** The sum of a counting dictionary's values. */
  function Total(d: Dict<nat>): int
    requires Valid(d)
  {
    SumBy(Values(d), (n: nat) => n as int)
  }

  lemma TotalBump(d: Dict<nat>, k: string)
    requires Valid(d)
    ensures Total(Bump(d, k)) == Total(d) + 1
    ensures Bump(d, k).vals == d.vals[k := Current(d, k, 0) + 1]
  {
    UpsertSum(d, k, 0, (n: nat) => n + 1, (n: nat) => n as int);
  }

  predicate CountLe(a: (string, nat), b: (string, nat)) {
    b.1 - a.1 <= 0
  }

  /** `Object.entries(d).sort(([, a], [, b]) => b - a)`: a counting
      dictionary's entries, largest count first, ties in insertion order. */
  function RankedEntries(d: Dict<nat>): (r: seq<(string, nat)>)
    requires Valid(d)
    ensures multiset(r) == multiset(Entries(d))
    ensures forall i, j :: 0 <= i < j < |r| ==> r[i].1 >= r[j].1
    ensures forall y :: Ties(r, y, CountLe) == Ties(Entries(d), y, CountLe)
  {
    assert TotalPreorder(CountLe);
    SortByStableAll(Entries(d), CountLe);
    SortBy(Entries(d), CountLe)
  }
}
