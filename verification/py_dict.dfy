/** A Python `dict` with string keys, as an insertion-ordered list of pairs:
    assigning to a present key replaces its value in place, assigning to a new
    key appends it. */
module PyDict {
  import opened Common

  type Dict<V> = seq<(string, V)>

  function Keys<V>(d: Dict<V>): set<string>
  {
    if d == [] then {} else {d[0].0} + Keys(d[1..])
  }

  /** No key occurs twice (every dict the interpreter builds is like this). */
  predicate UniqueKeys<V>(d: Dict<V>)
  {
    d == [] || (d[0].0 !in Keys(d[1..]) && UniqueKeys(d[1..]))
  }

  lemma {:induction false} KeysAppend<V>(a: Dict<V>, b: Dict<V>)
    ensures Keys(a + b) == Keys(a) + Keys(b)
    decreases |a|
  {
    if a != [] {
      assert (a + b)[1..] == a[1..] + b;
      KeysAppend(a[1..], b);
    } else {
      assert a + b == b;
    }
  }

  lemma {:induction false} KeysIndex<V>(d: Dict<V>, i: nat)
    requires i < |d|
    ensures d[i].0 in Keys(d)
    decreases i
  {
    if i > 0 { KeysIndex(d[1..], i - 1); }
  }

  /** A key is present exactly when some entry carries it. */
  lemma {:induction false} InKeys<V>(d: Dict<V>, k: string)
    ensures k in Keys(d) <==> exists i :: 0 <= i < |d| && d[i].0 == k
    decreases |d|
  {
    if d != [] {
      InKeys(d[1..], k);
      if k in Keys(d[1..]) {
        var i :| 0 <= i < |d[1..]| && d[1..][i].0 == k;
        assert d[i + 1].0 == k;
      }
      forall i | 0 < i < |d| && d[i].0 == k
        ensures k in Keys(d[1..])
      {
        assert d[1..][i - 1].0 == k;
      }
    }
  }

  /** `d[k]`, or None when `k` is absent. */
  function Get<V>(d: Dict<V>, k: string): (r: Option<V>)
    ensures r.Some? <==> k in Keys(d)
  {
    if d == [] then None
    else if d[0].0 == k then Some(d[0].1)
    else Get(d[1..], k)
  }

  /** `d[k] = v`. */
  function Put<V>(d: Dict<V>, k: string, v: V): (r: Dict<V>)
    ensures Keys(r) == Keys(d) + {k}
    ensures UniqueKeys(d) ==> UniqueKeys(r)
    ensures Get(r, k) == Some(v)
    ensures forall k' :: k' != k ==> Get(r, k') == Get(d, k')
    ensures k !in Keys(d) ==> r == d + [(k, v)]
    decreases |d|
  {
    if d == [] then [(k, v)]
    else if d[0].0 == k then
      var r := [(k, v)] + d[1..];
      assert r[1..] == d[1..];
      r
    else
      var rest := Put(d[1..], k, v);
      var r := [d[0]] + rest;
      assert r[1..] == rest;
      r
  }

  /** The dict a loop of assignments `d[p.0] = p.1` builds, starting empty. */
  function FromPairs<V>(ps: seq<(string, V)>): (d: Dict<V>)
    ensures UniqueKeys(d)
    ensures Keys(d) == Keys(ps)
  {
    if ps == [] then []
    else
      var n := |ps| - 1;
      assert ps == ps[..n] + [ps[n]];
      KeysAppend(ps[..n], [ps[n]]);
      Put(FromPairs(ps[..n]), ps[n].0, ps[n].1)
  }

  /** A later assignment to the same key wins: the value under a key is the
      one paired with the key's last occurrence. */
  lemma {:induction false} FromPairsLastWins<V>(ps: seq<(string, V)>, i: nat)
    requires i < |ps|
    requires forall j :: i < j < |ps| ==> ps[j].0 != ps[i].0
    ensures Get(FromPairs(ps), ps[i].0) == Some(ps[i].1)
    decreases |ps|
  {
    var n := |ps| - 1;
    if i < n {
      FromPairsLastWins(ps[..n], i);
    }
  }

  /** Assigning pairs whose keys are distinct reproduces them in order. */
  lemma {:induction false} FromPairsUnique<V>(ps: seq<(string, V)>)
    requires UniqueKeys(ps)
    ensures FromPairs(ps) == ps
    decreases |ps|
  {
    if ps != [] {
      var n := |ps| - 1;
      UniqueInit(ps);
      FromPairsUnique(ps[..n]);
      LastKeyFresh(ps);
      assert FromPairs(ps) == Put(ps[..n], ps[n].0, ps[n].1);
      assert ps[..n] + [(ps[n].0, ps[n].1)] == ps;
    }
  }

  lemma {:induction false} UniqueInit<V>(ps: seq<(string, V)>)
    requires ps != [] && UniqueKeys(ps)
    ensures UniqueKeys(ps[..|ps| - 1])
    decreases |ps|
  {
    var n := |ps| - 1;
    if n > 0 {
      UniqueInit(ps[1..]);
      assert ps[..n][1..] == ps[1..][..n - 1];
      assert ps[1..] == ps[1..][..n - 1] + [ps[n]];
      KeysAppend(ps[1..][..n - 1], [ps[n]]);
    }
  }

  lemma {:induction false} LastKeyFresh<V>(ps: seq<(string, V)>)
    requires ps != [] && UniqueKeys(ps)
    ensures ps[|ps| - 1].0 !in Keys(ps[..|ps| - 1])
    decreases |ps|
  {
    var n := |ps| - 1;
    if n > 0 {
      LastKeyFresh(ps[1..]);
      assert ps[..n][1..] == ps[1..][..n - 1];
      KeysIndex(ps[1..], n - 1);
    }
  }
}
