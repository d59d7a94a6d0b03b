/**
 * PHP ordered arrays with string keys, as the Multiplayer classes use them
 * for option sets, parameter maps and the provider registry: the keys in
 * iteration (insertion) order, no key twice, and the value of each key.
 */
module PhpArrays {
  import opened PhpValues

  predicate Distinct(s: seq<string>) {
    forall i, j :: 0 <= i < j < |s| ==> s[i] != s[j]
  }

  datatype RawDict<V> = RawDict(keys: seq<string>, vals: map<string, V>)

  predicate Wf<V>(d: RawDict<V>) {
    && Distinct(d.keys)
    && (forall k :: k in d.keys ==> k in d.vals)
    && (forall k :: k in d.vals ==> k in d.keys)
  }

  /** A PHP array restricted to string keys. */
  type Dict<V> = d: RawDict<V> | Wf(d) witness RawDict([], map[])

  /** `array()`. */
  function Empty<V>(): (r: Dict<V>)
    ensures r.keys == [] && r.vals == map[]
  {
    RawDict([], map[])
  }

  /** `count($d)`. */
  function Size<V>(d: Dict<V>): nat {
    |d.keys|
  }

  /** `$d[$k]` for a key that may be missing. */
  function Get<V>(d: Dict<V>, k: string): (r: Option<V>)
    ensures r.Some? <==> k in d.keys
  {
    if k in d.vals then Some(d.vals[k]) else None
  }

  /** The elements of `s` that are not in `drop`, in their order. */
  function Filter(s: seq<string>, drop: set<string>): seq<string> {
    if s == [] then []
    else if s[0] in drop then Filter(s[1..], drop)
    else [s[0]] + Filter(s[1..], drop)
  }

  /** Filtering keeps exactly the elements outside `drop`, and keeps them distinct. */
  lemma {:induction false} FilterSpec(s: seq<string>, drop: set<string>)
    ensures forall x :: x in Filter(s, drop) <==> x in s && x !in drop
    ensures Distinct(s) ==> Distinct(Filter(s, drop))
  {
    if s != [] {
      FilterSpec(s[1..], drop);
      assert Distinct(s) ==> s[0] !in s[1..];
      assert forall x :: x in s <==> x == s[0] || x in s[1..];
    }
  }

  lemma DistinctConcat(a: seq<string>, b: seq<string>)
    requires Distinct(a) && Distinct(b)
    requires forall x :: x in b ==> x !in a
    ensures Distinct(a + b)
  {
    forall i, j | 0 <= i < j < |a + b| ensures (a + b)[i] != (a + b)[j] {
      if i >= |a| {
        assert (a + b)[i] == b[i - |a|] && (a + b)[j] == b[j - |a|];
      } else if j >= |a| {
        assert (a + b)[j] == b[j - |a|] && b[j - |a|] in b;
      }
    }
  }

  /**
   * `$d[$k] = $v`: an existing key keeps its position and takes the new
   * value, a new key is appended.
   */
  function Put<V>(d: Dict<V>, k: string, v: V): (r: Dict<V>)
    ensures r.keys == if k in d.keys then d.keys else d.keys + [k]
    ensures r.vals == d.vals[k := v]
  {
    if k in d.vals then RawDict(d.keys, d.vals[k := v])
    else
      DistinctConcat(d.keys, [k]);
      RawDict(d.keys + [k], d.vals[k := v])
  }

  /**
   * `array_diff_key($d, $drop)`: the entries of `d` whose key is not in
   * `drop`, in their original order.
   */
  function DiffKey<V>(d: Dict<V>, drop: set<string>): (r: Dict<V>)
    ensures r.keys == Filter(d.keys, drop)
    ensures r.vals == d.vals - drop
  {
    FilterSpec(d.keys, drop);
    RawDict(Filter(d.keys, drop), d.vals - drop)
  }

  /**
   * `$a + $b` (and `$a += $b`): every entry of `a`, then the entries of `b`
   * whose key `a` lacks, in `b`'s order. On a shared key the left side wins.
   */
  function Union<V>(a: Dict<V>, b: Dict<V>): (r: Dict<V>)
    ensures r.keys == a.keys + Filter(b.keys, a.vals.Keys)
    ensures r.vals == b.vals + a.vals
  {
    var extra := Filter(b.keys, a.vals.Keys);
    FilterSpec(b.keys, a.vals.Keys);
    DistinctConcat(a.keys, extra);
    RawDict(a.keys + extra, b.vals + a.vals)
  }

  /**
   * `array_merge($a, $b)` for string keys: a key of `a` keeps its position
   * and takes `b`'s value when `b` has it (the right side wins); the keys
   * that only `b` has are appended, in `b`'s order, with `b`'s values.
   */
  function Merge<V>(a: Dict<V>, b: Dict<V>): (r: Dict<V>)
    ensures r.keys == a.keys + Filter(b.keys, a.vals.Keys)
    ensures r.vals == a.vals + b.vals
  {
    var extra := Filter(b.keys, a.vals.Keys);
    FilterSpec(b.keys, a.vals.Keys);
    DistinctConcat(a.keys, extra);
    RawDict(a.keys + extra, a.vals + b.vals)
  }

  /** After `$d[$k] = $v`, `$d[$k]` is v and every other key reads as before. */
  lemma PutGet<V>(d: Dict<V>, k: string, v: V, j: string)
    ensures Get(Put(d, k, v), j) == if j == k then Some(v) else Get(d, j)
    ensures Size(Put(d, k, v)) == if k in d.vals then Size(d) else Size(d) + 1
  {
  }

  /** `$a + $b` reads a key from `a` when `a` has it, else from `b`; it has a key iff either side has it. */
  lemma UnionGet<V>(a: Dict<V>, b: Dict<V>, k: string)
    ensures Get(Union(a, b), k) == if k in a.vals then Get(a, k) else Get(b, k)
  {
  }

  /** `array_merge($a, $b)` reads a key from `b` when `b` has it, else from `a`. */
  lemma MergeGet<V>(a: Dict<V>, b: Dict<V>, k: string)
    ensures Get(Merge(a, b), k) == if k in b.vals then Get(b, k) else Get(a, k)
  {
  }

  /** `array_diff_key($d, $drop)` keeps exactly the entries of `d` whose key is not dropped. */
  lemma DiffKeyGet<V>(d: Dict<V>, drop: set<string>, k: string)
    ensures Get(DiffKey(d, drop), k) == if k in drop then None else Get(d, k)
  {
  }

  lemma {:induction false} FilterNothing(s: seq<string>)
    ensures Filter(s, {}) == s
  {
    if s != [] {
      FilterNothing(s[1..]);
      assert s == [s[0]] + s[1..];
    }
  }

  /** `array_merge(array(), $d)` is `$d` for string keys. */
  lemma MergeIntoEmpty<V>(d: Dict<V>)
    ensures Merge(Empty(), d) == d
  {
    var e: Dict<V> := Empty();
    assert e.vals.Keys == {};
    FilterNothing(d.keys);
    assert Merge(e, d).keys == d.keys;
  }
}
