/** Python dictionaries as the scripts use them: they remember the order in
    which keys were first inserted, and assigning to a key already present
    replaces its value without moving it. Also the ordered de-duplication
    that such insertion order amounts to. */
module OrderedDict {
  import opened Common

  /** A dict: its keys in iteration order, and the value held under each. */
  datatype Dict<K, V> = Dict(keys: seq<K>, values: map<K, V>)

  /** Every key is listed once, and the listed keys are exactly those that
      hold a value. */
  ghost predicate Valid<K(!new), V>(d: Dict<K, V>) {
    && NoRepeats(d.keys)
    && Listed(d)
  }

  /** The listed keys are exactly those that hold a value. */
  ghost predicate Listed<K(!new), V>(d: Dict<K, V>) {
    forall k :: k in d.values <==> k in d.keys
  }

  /** d lists as keys the distinct elements of s, in order of first
      appearance, and exactly those hold a value. */
  ghost predicate KeyedBy<K(!new), V>(d: Dict<K, V>, s: seq<K>) {
    Listed(d) && d.keys == Dedup(s)
  }

  /** {} */
  function Empty<K(!new), V>(): (r: Dict<K, V>)
    ensures Valid(r) && r.keys == []
  {
    Dict([], map[])
  }

  /** d.get(k) */
  function Get<K(==), V>(d: Dict<K, V>, k: K): Option<V> {
    if k in d.values then Some(d.values[k]) else None
  }

  /** d[k] = v: a new key goes to the end, an existing one keeps its place. */
  function Put<K(==,!new), V>(d: Dict<K, V>, k: K, v: V): (r: Dict<K, V>)
    ensures Valid(d) ==> Valid(r)
    ensures Listed(d) ==> Listed(r) && r.keys == if k in d.keys then d.keys else d.keys + [k]
    ensures Get(r, k) == Some(v)
    ensures forall k' :: k' != k ==> Get(r, k') == Get(d, k')
  {
    Dict(if k in d.values then d.keys else d.keys + [k], d.values[k := v])
  }

  /** d.get(k, []) for dicts of lists. */
  function GetOr<K(==), V>(d: Dict<K, seq<V>>, k: K): seq<V> {
    if k in d.values then d.values[k] else []
  }

  /** `if k not in d: d[k] = []` followed by `d[k].append(v)`. */
  function Append<K(==,!new), V>(d: Dict<K, seq<V>>, k: K, v: V): (r: Dict<K, seq<V>>)
    ensures Valid(d) ==> Valid(r)
    ensures Listed(d) ==> Listed(r) && r.keys == if k in d.keys then d.keys else d.keys + [k]
    ensures forall k' :: GetOr(r, k') == if k' == k then GetOr(d, k') + [v] else GetOr(d, k')
  {
    Put(d, k, GetOr(d, k) + [v])
  }

  /** A dict whose keys are the distinct labels of s in first-appearance
      order keeps that description when a value is appended under k and k
      is added to s. */
  lemma AppendKeysDedup<K(!new), V>(d: Dict<K, seq<V>>, s: seq<K>, k: K, v: V)
    requires KeyedBy(d, s)
    ensures KeyedBy(Append(d, k, v), s + [k])
  {
    assert (s + [k])[..|s|] == s;
  }

  /** The first position of x in s. */
  function FirstIndex<T(==)>(s: seq<T>, x: T): (r: nat)
    requires x in s
    ensures r < |s| && s[r] == x && x !in s[..r]
  {
    if s[0] == x then 0
    else
      var r := 1 + FirstIndex(s[1..], x);
      assert s[..r] == [s[0]] + s[1..][..r - 1];
      r
  }

  /** The distinct elements of s, in order of first appearance: what
      `for x in s: if x not in out: out.append(x)` leaves in out. */
  function Dedup<T(==,!new)>(s: seq<T>): (r: seq<T>)
    ensures forall x :: x in r <==> x in s
    ensures NoRepeats(r)
  {
    if s == [] then []
    else
      var d := Dedup(s[..|s| - 1]);
      var x := s[|s| - 1];
      assert forall y :: y in s <==> y in s[..|s| - 1] || y == x by {
        assert s == s[..|s| - 1] + [x];
      }
      if x in d then d else d + [x]
  }

  lemma FirstIndexOfExtension<T>(s: seq<T>, x: T, y: T)
    requires y in s
    ensures FirstIndex(s + [x], y) == FirstIndex(s, y)
  {
    var i, j := FirstIndex(s + [x], y), FirstIndex(s, y);
    assert (s + [x])[j] == y;
    assert (s + [x])[..j] == s[..j];
  }

  /** Dedup keeps elements in the order of their first appearance in s. */
  lemma {:induction false} DedupOrder<T(!new)>(s: seq<T>)
    ensures forall i, j :: 0 <= i < j < |Dedup(s)| ==>
      FirstIndex(s, Dedup(s)[i]) < FirstIndex(s, Dedup(s)[j])
  {
    if s != [] {
      var init, x := s[..|s| - 1], s[|s| - 1];
      assert s == init + [x];
      DedupOrder(init);
      var d, r := Dedup(init), Dedup(s);
      forall y | y in d
        ensures FirstIndex(s, y) == FirstIndex(init, y) < |init|
      {
        FirstIndexOfExtension(init, x, y);
      }
      if x !in d {
        assert x !in init;
        assert FirstIndex(s, x) == |init|;
        forall i, j | 0 <= i < j < |r|
          ensures FirstIndex(s, r[i]) < FirstIndex(s, r[j])
        {
          assert r[i] in d;
          if j < |d| {
            assert r[j] in d;
          }
        }
      }
    }
  }

  /** A sequence without repetitions holds each of its elements once. */
  lemma {:induction false} DistinctCount<T>(s: seq<T>, x: T)
    requires NoRepeats(s)
    ensures multiset(s)[x] == if x in s then 1 else 0
  {
    if s != [] {
      var init := s[..|s| - 1];
      assert s == init + [s[|s| - 1]];
      DistinctCount(init, x);
      assert s[|s| - 1] !in init;
    }
  }
}
