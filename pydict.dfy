/** Python's `dict` with hour keys, as the controller fills it with `d.update({k: v})`: a list
    of entries in insertion order, where writing an existing key replaces its value in place. */
module PyDict {
  import opened Text

  /** The value stored for `k`, if any: the first entry with that key. */
  function Get<V>(d: seq<(int, V)>, k: int): Option<V>
  {
    if |d| == 0 then None else if d[0].0 == k then Some(d[0].1) else Get(d[1..], k)
  }

  function Keys<V>(d: seq<(int, V)>): set<int>
  {
    set i | 0 <= i < |d| :: d[i].0
  }

  predicate DistinctKeys<V>(d: seq<(int, V)>)
  {
    forall i, j :: 0 <= i < j < |d| ==> d[i].0 != d[j].0
  }

  /** `d[k] = v`: an existing key keeps its position and takes the new value; a new key goes last. */
  function Put<V>(d: seq<(int, V)>, k: int, v: V): (r: seq<(int, V)>)
    ensures Get(r, k) == Some(v)
    ensures forall k' :: k' != k ==> Get(r, k') == Get(d, k')
    ensures Keys(r) == Keys(d) + {k}
    ensures DistinctKeys(d) ==> DistinctKeys(r)
    ensures |r| == if k in Keys(d) then |d| else |d| + 1
  {
    if |d| == 0 then [(k, v)]
    else if d[0].0 == k then
      var r := [(k, v)] + d[1..];
      assert d == [d[0]] + d[1..];
      DistinctCons(d[0], d[1..]);
      DistinctCons((k, v), d[1..]);
      r
    else
      var t := Put(d[1..], k, v);
      var r := [d[0]] + t;
      assert d == [d[0]] + d[1..];
      DistinctCons(d[0], d[1..]);
      DistinctCons(d[0], t);
      r
  }

  /** `d[k] = v` keeps the order of the keys already present. */
  lemma {:induction false} PutKeepsOrder<V>(d: seq<(int, V)>, k: int, v: V)
    ensures forall i :: 0 <= i < |d| ==> Put(d, k, v)[i].0 == d[i].0
    decreases |d|
  {
    if |d| > 0 && d[0].0 != k {
      PutKeepsOrder(d[1..], k, v);
      var t := Put(d[1..], k, v);
      assert Put(d, k, v) == [d[0]] + t;
      forall i | 0 < i < |d| ensures Put(d, k, v)[i].0 == d[i].0 {
        assert Put(d, k, v)[i] == t[i - 1] && d[i] == d[1..][i - 1];
      }
    }
  }

  /** `d[k] = v` with a new key puts it last. */
  lemma {:induction false} PutNewLast<V>(d: seq<(int, V)>, k: int, v: V)
    requires k !in Keys(d)
    ensures Put(d, k, v) == d + [(k, v)]
    decreases |d|
  {
    if |d| > 0 {
      KeysCons(d);
      assert d[0].0 != k && k !in Keys(d[1..]);
      PutNewLast(d[1..], k, v);
      assert Put(d, k, v) == [d[0]] + (d[1..] + [(k, v)]);
      assert d == [d[0]] + d[1..];
    }
  }

  /** A dictionary with a first entry has distinct keys when the rest does and does not hold the
      first key. */
  lemma DistinctCons<V>(x: (int, V), rest: seq<(int, V)>)
    ensures Keys([x] + rest) == {x.0} + Keys(rest)
    ensures DistinctKeys([x] + rest) <==> DistinctKeys(rest) && x.0 !in Keys(rest)
  {
    var d := [x] + rest;
    KeysCons(d);
    assert d[1..] == rest;
    if DistinctKeys(d) {
      forall i, j | 0 <= i < j < |rest| ensures rest[i].0 != rest[j].0 { assert d[i + 1] == rest[i] && d[j + 1] == rest[j]; }
    }
    if DistinctKeys(rest) && x.0 !in Keys(rest) {
      forall i, j | 0 <= i < j < |d| ensures d[i].0 != d[j].0 {
        assert d[j] == rest[j - 1];
        if i > 0 { assert d[i] == rest[i - 1]; }
      }
    }
  }

  lemma KeysCons<V>(d: seq<(int, V)>)
    requires |d| >= 1
    ensures Keys(d) == {d[0].0} + Keys(d[1..])
  {
    forall x | x in Keys(d) ensures x in {d[0].0} + Keys(d[1..]) {
      var i :| 0 <= i < |d| && d[i].0 == x;
      if i > 0 { assert d[1..][i - 1].0 == x; }
    }
    forall x | x in Keys(d[1..]) ensures x in Keys(d) {
      var i :| 0 <= i < |d[1..]| && d[1..][i].0 == x;
      assert d[i + 1].0 == x;
    }
  }

  /** A key has a value exactly when it was written. */
  lemma {:induction false} GetKeys<V>(d: seq<(int, V)>, k: int)
    ensures Get(d, k).Some? <==> k in Keys(d)
  {
    if |d| > 0 {
      KeysCons(d);
      GetKeys(d[1..], k);
    }
  }

  lemma GetAllKeys<V>(d: seq<(int, V)>)
    ensures forall k :: Get(d, k).Some? <==> k in Keys(d)
  {
    forall k ensures Get(d, k).Some? <==> k in Keys(d) { GetKeys(d, k); }
  }

  /** The dictionary as a map, for lookups that do not care about order. */
  function ToMap<V>(d: seq<(int, V)>): (m: map<int, V>)
    ensures m.Keys == Keys(d)
    ensures forall k :: k in m ==> Get(d, k) == Some(m[k])
  {
    GetAllKeys(d);
    map k | k in Keys(d) :: Get(d, k).value
  }
}
