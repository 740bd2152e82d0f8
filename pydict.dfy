/**
 * Python dictionaries with string keys, as the translation uses them: insertion
 * ordered, and `d[k] = v` keeps an existing key at its place while replacing its
 * value, or appends a new key at the end.
 */
module PyDict {
  import opened Wrappers

  /** The entries of a dict in iteration order. */
  type Dict<V> = seq<(string, V)>

  function Keys<V>(d: Dict<V>): seq<string> {
    seq(|d|, i requires 0 <= i < |d| => d[i].0)
  }

  predicate UniqueKeys<V>(d: Dict<V>) {
    forall i, j :: 0 <= i < j < |d| ==> d[i].0 != d[j].0
  }

  /** The position of key `k`, if it is present. */
  function IndexOf<V>(d: Dict<V>, k: string): (r: Option<nat>)
    ensures r.Some? ==> r.value < |d| && d[r.value].0 == k
    ensures r.Some? ==> forall i :: 0 <= i < r.value ==> d[i].0 != k
    ensures r.None? ==> forall i :: 0 <= i < |d| ==> d[i].0 != k
  {
    if |d| == 0 then None
    else if d[0].0 == k then Some(0)
    else
      match IndexOf(d[1..], k)
      case None => None
      case Some(i) => Some(i + 1)
  }

  /** The first position holding `k` is what IndexOf finds. */
  lemma IndexOfFirst<V>(d: Dict<V>, k: string, i: nat)
    requires i < |d| && d[i].0 == k
    requires forall j :: 0 <= j < i ==> d[j].0 != k
    ensures IndexOf(d, k) == Some(i)
  {
  }

  lemma KeysMember<V>(d: Dict<V>, k: string)
    ensures k in Keys(d) <==> exists i :: 0 <= i < |d| && d[i].0 == k
  {
    if k in Keys(d) {
      var i :| 0 <= i < |d| && Keys(d)[i] == k;
    }
    if i :| 0 <= i < |d| && d[i].0 == k {
      assert Keys(d)[i] == k;
    }
  }

  /** `d[k]`; `None` stands for the KeyError Python raises. */
  function Lookup<V>(d: Dict<V>, k: string): Option<V> {
    match IndexOf(d, k)
    case None => None
    case Some(i) => Some(d[i].1)
  }

  /** `d[k]` succeeds exactly for the keys of `d`. */
  lemma LookupKeys<V>(d: Dict<V>, k: string)
    ensures Lookup(d, k).Some? <==> k in Keys(d)
  {
    KeysMember(d, k);
  }

  /** `d[k] = v`. */
  function Assign<V>(d: Dict<V>, k: string, v: V): (r: Dict<V>)
    ensures Lookup(r, k) == Some(v)
    ensures forall k' {:trigger Lookup(r, k')} :: k' != k ==> Lookup(r, k') == Lookup(d, k')
    ensures k in Keys(d) ==> Keys(r) == Keys(d)
    ensures k !in Keys(d) ==> Keys(r) == Keys(d) + [k]
    ensures UniqueKeys(d) ==> UniqueKeys(r)
    ensures forall e :: e in r ==> e in d || e == (k, v)
  {
    KeysMember(d, k);
    match IndexOf(d, k)
    case Some(i) =>
      var r := d[i := (k, v)];
      IndexOfFirst(r, k, i);
      assert forall k' {:trigger Lookup(r, k')} :: k' != k ==> Lookup(r, k') == Lookup(d, k') by {
        forall k' | k' != k
          ensures Lookup(r, k') == Lookup(d, k')
        {
          if IndexOf(d, k').Some? {
            IndexOfFirst(r, k', IndexOf(d, k').value);
          }
        }
      }
      r
    case None =>
      var r := d + [(k, v)];
      IndexOfFirst(r, k, |d|);
      assert forall k' {:trigger Lookup(r, k')} :: k' != k ==> Lookup(r, k') == Lookup(d, k') by {
        forall k' | k' != k
          ensures Lookup(r, k') == Lookup(d, k')
        {
          if IndexOf(d, k').Some? {
            IndexOfFirst(r, k', IndexOf(d, k').value);
          }
        }
      }
      assert Keys(r) == Keys(d) + [k];
      r
  }

  /** The dict that assigning the pairs of `ps` one after the other builds from `{}`. */
  function FromPairs<V>(ps: seq<(string, V)>): (d: Dict<V>)
    ensures UniqueKeys(d)
    ensures |d| <= |ps|
    ensures forall e :: e in d ==> e in ps
  {
    if |ps| == 0 then []
    else
      var last := ps[|ps| - 1];
      Assign(FromPairs(ps[..|ps| - 1]), last.0, last.1)
  }

  /** `j` is the last position in `ps` whose key is `k`. */
  ghost predicate LastWithKey<V>(ps: seq<(string, V)>, k: string, j: int) {
    0 <= j < |ps| && ps[j].0 == k && forall j' :: j < j' < |ps| ==> ps[j'].0 != k
  }

  lemma FromPairsSnoc<V>(ps: seq<(string, V)>, p: (string, V))
    ensures FromPairs(ps + [p]) == Assign(FromPairs(ps), p.0, p.1)
  {
    assert (ps + [p])[..|ps|] == ps;
  }

  /** A key that no pair carries is missing from the dict. */
  lemma {:induction false} FromPairsAbsent<V>(ps: seq<(string, V)>, k: string)
    requires forall j :: 0 <= j < |ps| ==> ps[j].0 != k
    ensures Lookup(FromPairs(ps), k) == None
  {
    if |ps| > 0 {
      FromPairsAbsent(ps[..|ps| - 1], k);
    }
  }

  /** A key maps to the value of the last pair that carries it. */
  lemma {:induction false} FromPairsLast<V>(ps: seq<(string, V)>, k: string, j: int)
    requires LastWithKey(ps, k, j)
    ensures Lookup(FromPairs(ps), k) == Some(ps[j].1)
  {
    var n := |ps| - 1;
    var init := ps[..n];
    var d := FromPairs(init);
    assert FromPairs(ps) == Assign(d, ps[n].0, ps[n].1);
    if j < n {
      assert LastWithKey(init, k, j) && ps[n].0 != k;
      FromPairsLast(init, k, j);
      assert Lookup(Assign(d, ps[n].0, ps[n].1), k) == Lookup(d, k);
    } else {
      assert Lookup(Assign(d, k, ps[n].1), k) == Some(ps[j].1);
    }
  }

  /** The keys of the dict are the keys of the pairs, each once. */
  lemma {:induction false} FromPairsKeys<V>(ps: seq<(string, V)>, k: string)
    ensures k in Keys(FromPairs(ps)) <==> exists j :: 0 <= j < |ps| && ps[j].0 == k
  {
    if |ps| > 0 {
      var n := |ps| - 1;
      FromPairsKeys(ps[..n], k);
      if k in Keys(FromPairs(ps[..n])) {
        var j :| 0 <= j < n && ps[..n][j].0 == k;
        assert ps[j].0 == k;
      }
      if j :| 0 <= j < |ps| && ps[j].0 == k {
        if j < n {
          assert ps[..n][j].0 == k;
        }
      }
    }
  }

  /** Pairs with distinct keys build a dict holding exactly those pairs, in order. */
  lemma {:induction false} FromPairsDistinct<V>(ps: seq<(string, V)>)
    requires UniqueKeys(ps)
    ensures FromPairs(ps) == ps
  {
    if |ps| > 0 {
      var n := |ps| - 1;
      var init := ps[..n];
      assert UniqueKeys(init);
      FromPairsDistinct(init);
      FromPairsKeys(init, ps[n].0);
    }
  }
}
