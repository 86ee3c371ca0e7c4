/**
 * Python dicts with string keys, as insertion-ordered association lists:
 * lookup, `d[k] = v`, `d.pop(k)` and `d.update(e)`.
 */
module Dicts {
  import opened Wrappers
  import opened Py

  type Dict = seq<(string, Value)>

  /** The keys of `d`, in insertion order. */
  function KeysOf(d: Dict): (ks: seq<string>)
    ensures |ks| == |d|
    ensures forall i :: 0 <= i < |d| ==> ks[i] == d[i].0
  {
    seq(|d|, i requires 0 <= i < |d| => d[i].0)
  }

  /** No key occurs twice: what every Python dict satisfies. */
  predicate DistinctKeys(d: Dict)
  {
    forall i, j :: 0 <= i < j < |d| ==> d[i].0 != d[j].0
  }

  /** `d.get(k)`: the value stored under `k`, if there is one. */
  function Lookup(d: Dict, k: string): (r: Option<Value>)
    ensures r.Some? <==> k in KeysOf(d)
    ensures r.Some? ==> (k, r.value) in d
  {
    if d == [] then None
    else if d[0].0 == k then Some(d[0].1)
    else
      assert KeysOf(d) == [d[0].0] + KeysOf(d[1..]);
      Lookup(d[1..], k)
  }

  /** `d.get(k, dflt)`. */
  function Get(d: Dict, k: string, dflt: Value): Value
  {
    match Lookup(d, k)
    case Some(v) => v
    case None => dflt
  }

  /** `d[k] = v`: an existing key keeps its place, a new key goes last. */
  function Assign(d: Dict, k: string, v: Value): (r: Dict)
    ensures KeysOf(r) == if k in KeysOf(d) then KeysOf(d) else KeysOf(d) + [k]
  {
    if d == [] then [(k, v)]
    else if d[0].0 == k then
      KeysOfCons(d);
      KeysOfCons([(k, v)] + d[1..]);
      assert ([(k, v)] + d[1..])[1..] == d[1..];
      [(k, v)] + d[1..]
    else
      var r := [d[0]] + Assign(d[1..], k, v);
      KeysOfCons(d);
      KeysOfCons(r);
      assert r[1..] == Assign(d[1..], k, v);
      r
  }

  /** After `d[k] = v`, `k` holds `v` and every other key what it held before. */
  lemma {:induction false} AssignLookup(d: Dict, k: string, v: Value, k2: string)
    ensures Lookup(Assign(d, k, v), k2) == if k2 == k then Some(v) else Lookup(d, k2)
  {
    if d != [] && d[0].0 != k {
      AssignLookup(d[1..], k, v, k2);
    }
  }

  /** Assignment keeps the keys distinct. */
  lemma {:induction false} AssignDistinct(d: Dict, k: string, v: Value)
    requires DistinctKeys(d)
    ensures DistinctKeys(Assign(d, k, v))
  {
    var r := Assign(d, k, v);
    var ks := KeysOf(r);
    forall i, j | 0 <= i < j < |r|
      ensures r[i].0 != r[j].0
    {
      assert ks[i] == r[i].0 && ks[j] == r[j].0;
      if k !in KeysOf(d) && j == |d| {
        assert ks[i] == KeysOf(d)[i];
      } else {
        assert ks[i] == KeysOf(d)[i] == d[i].0;
        assert ks[j] == KeysOf(d)[j] == d[j].0;
      }
    }
  }

  /** `d.pop(k, None)`: `d` without the entry for `k`. */
  function Remove(d: Dict, k: string): (r: Dict)
    ensures |r| <= |d|
    ensures forall i :: 0 <= i < |r| ==> r[i] in d && r[i].0 != k
    ensures DistinctKeys(d) ==> DistinctKeys(r)
  {
    if d == [] then []
    else if d[0].0 == k then Remove(d[1..], k)
    else [d[0]] + Remove(d[1..], k)
  }

  /** After popping `k`, `k` is absent and every other key holds what it held before. */
  lemma {:induction false} RemoveLookup(d: Dict, k: string, k2: string)
    ensures Lookup(Remove(d, k), k2) == if k2 == k then None else Lookup(d, k2)
  {
    if d != [] {
      RemoveLookup(d[1..], k, k2);
    }
  }

  /** `d.update(e)`: the entries of `e` assigned in order. */
  function UpdateDict(d: Dict, e: Dict): Dict
    decreases |e|
  {
    if e == [] then d else UpdateDict(Assign(d, e[0].0, e[0].1), e[1..])
  }

  /**
   * After `d.update(e)`, a key of `e` holds its value in `e`, and any
   * other key what it held in `d`.
   */
  lemma {:induction false} UpdateLookup(d: Dict, e: Dict, k: string)
    requires DistinctKeys(e)
    ensures Lookup(UpdateDict(d, e), k) == if k in KeysOf(e) then Lookup(e, k) else Lookup(d, k)
    decreases |e|
  {
    if e != [] {
      var k0, v0, rest := e[0].0, e[0].1, e[1..];
      var d1 := Assign(d, k0, v0);
      assert DistinctKeys(rest) by {
        forall i, j | 0 <= i < j < |rest|
          ensures rest[i].0 != rest[j].0
        {
          assert rest[i] == e[i + 1] && rest[j] == e[j + 1];
        }
      }
      UpdateLookup(d1, rest, k);
      AssignLookup(d, k0, v0, k);
      KeysOfCons(e);
      if k == k0 {
        forall i | 0 <= i < |rest|
          ensures KeysOf(rest)[i] != k
        {
          assert rest[i] == e[i + 1];
        }
      }
    }
  }

  lemma KeysOfCons(e: Dict)
    requires e != []
    ensures KeysOf(e) == [e[0].0] + KeysOf(e[1..])
  {
  }

  /** Updating keeps the keys distinct. */
  lemma {:induction false} UpdateDistinct(d: Dict, e: Dict)
    requires DistinctKeys(d)
    ensures DistinctKeys(UpdateDict(d, e))
    decreases |e|
  {
    if e != [] {
      AssignDistinct(d, e[0].0, e[0].1);
      UpdateDistinct(Assign(d, e[0].0, e[0].1), e[1..]);
    }
  }

  /** With distinct keys, the entry at position `m` is what its key looks up. */
  lemma {:induction false} LookupAt(d: Dict, m: int)
    requires DistinctKeys(d)
    requires 0 <= m < |d|
    ensures Lookup(d, d[m].0) == Some(d[m].1)
  {
    if m > 0 {
      assert d[0].0 != d[m].0;
      var rest := d[1..];
      assert DistinctKeys(rest) by {
        forall i, j | 0 <= i < j < |rest|
          ensures rest[i].0 != rest[j].0
        {
          assert rest[i] == d[i + 1] && rest[j] == d[j + 1];
        }
      }
      assert rest[m - 1] == d[m];
      LookupAt(rest, m - 1);
    }
  }
}
