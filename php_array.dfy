/**
 * PHP's ordered arrays with string keys, as the plugin's filters use them:
 * a sequence of (key, value) entries in insertion order. A PHP array never
 * holds a key twice; `DistinctKeys` states that and every operation keeps it.
 */
module PhpArray {
  import opened Common

  /** No string occurs twice in `ks`. */
  predicate Distinct(ks: seq<string>) {
    forall i, j :: 0 <= i < j < |ks| ==> ks[i] != ks[j]
  }

  /** `array_keys($a)`. */
  function Keys<V>(a: seq<(string, V)>): (ks: seq<string>)
    ensures |ks| == |a| && forall i :: 0 <= i < |a| ==> ks[i] == a[i].0
  {
    seq(|a|, i requires 0 <= i < |a| => a[i].0)
  }

  /** `array_values($a)`. */
  function Values<V>(a: seq<(string, V)>): (vs: seq<V>)
    ensures |vs| == |a| && forall i :: 0 <= i < |a| ==> vs[i] == a[i].1
  {
    seq(|a|, i requires 0 <= i < |a| => a[i].1)
  }

  /** The invariant of a PHP array: each key appears once. */
  predicate DistinctKeys<V>(a: seq<(string, V)>) {
    Distinct(Keys(a))
  }

  /**
   * `array_search($x, $ks)` on a list: the first position holding `x`, or
   * nothing (PHP's `false`) when `x` does not occur.
   */
  function Search(ks: seq<string>, x: string): (r: Option<nat>)
    ensures r.None? <==> x !in ks
    ensures r.Some? ==> r.value < |ks| && ks[r.value] == x
                        && forall j :: 0 <= j < r.value ==> ks[j] != x
  {
    if ks == [] then None
    else if ks[0] == x then Some(0)
    else match Search(ks[1..], x)
      case None => None
      case Some(i) => Some(i + 1)
  }

  /** `$a[$k]` when `isset`: the value stored under `k`. */
  function Lookup<V>(a: seq<(string, V)>, k: string): (r: Option<V>)
    ensures r.None? <==> k !in Keys(a)
    ensures DistinctKeys(a) ==> forall i :: 0 <= i < |a| && a[i].0 == k ==> r == Some(a[i].1)
  {
    match Search(Keys(a), k)
    case None => None
    case Some(i) => Some(a[i].1)
  }

  /**
   * `$a[$k] = $v`: an existing key keeps its position and takes the new
   * value; a new key is appended at the end.
   */
  function Assign<V>(a: seq<(string, V)>, k: string, v: V): (r: seq<(string, V)>)
    ensures Keys(r) == if k in Keys(a) then Keys(a) else Keys(a) + [k]
    ensures Lookup(r, k) == Some(v)
    ensures forall k' :: k' != k ==> Lookup(r, k') == Lookup(a, k')
    ensures forall i :: 0 <= i < |a| && a[i].0 != k ==> r[i] == a[i]
    ensures DistinctKeys(a) ==> DistinctKeys(r)
  {
    match Search(Keys(a), k)
    case Some(i) =>
      var r := a[i := (k, v)];
      assert Keys(r) == Keys(a);
      r
    case None =>
      var r := a + [(k, v)];
      assert Keys(r) == Keys(a) + [k];
      forall k' | k' != k ensures Lookup(r, k') == Lookup(a, k') {
        SearchAppend(Keys(a), k, k');
      }
      r
  }

  /** Appending a key other than `x` does not change where `x` is found. */
  lemma {:induction false} SearchAppend(ks: seq<string>, k: string, x: string)
    requires x != k
    ensures Search(ks + [k], x) == Search(ks, x)
  {
    if ks != [] && ks[0] != x {
      assert (ks + [k])[1..] == ks[1..] + [k];
      SearchAppend(ks[1..], k, x);
    }
  }

  /**
   * `array_combine($ks, $vs)`: the entries are assigned in order, so a key
   * that occurs twice keeps its first position and its last value.
   */
  function Combine<V>(ks: seq<string>, vs: seq<V>): (r: seq<(string, V)>)
    requires |ks| == |vs|
    ensures DistinctKeys(r)
    ensures forall k :: k in Keys(r) <==> k in ks
    ensures Distinct(ks) ==> |r| == |ks| && forall i :: 0 <= i < |ks| ==> r[i] == (ks[i], vs[i])
  {
    if ks == [] then []
    else
      var n := |ks| - 1;
      var prefix := Combine(ks[..n], vs[..n]);
      var r := Assign(prefix, ks[n], vs[n]);
      CombineStep(ks, vs, prefix, r);
      r
  }

  /** One step of `Combine`: assigning the last pair to the combination of the others. */
  lemma CombineStep<V>(ks: seq<string>, vs: seq<V>, prefix: seq<(string, V)>, r: seq<(string, V)>)
    requires |ks| == |vs| > 0
    requires var n := |ks| - 1;
             && DistinctKeys(prefix)
             && (forall k :: k in Keys(prefix) <==> k in ks[..n])
             && (Distinct(ks[..n]) ==> |prefix| == n && forall i :: 0 <= i < n ==> prefix[i] == (ks[i], vs[i]))
             && r == Assign(prefix, ks[n], vs[n])
    ensures DistinctKeys(r)
    ensures forall k :: k in Keys(r) <==> k in ks
    ensures Distinct(ks) ==> |r| == |ks| && forall i :: 0 <= i < |ks| ==> r[i] == (ks[i], vs[i])
  {
    var n := |ks| - 1;
    assert ks == ks[..n] + [ks[n]];
    if Distinct(ks) {
      assert Distinct(ks[..n]);
      assert Keys(prefix) == ks[..n];
      CombineStepDistinct(ks, vs, prefix, r);
    }
  }

  /** The step of `Combine` on distinct keys appends the last pair. */
  lemma CombineStepDistinct<V>(ks: seq<string>, vs: seq<V>, prefix: seq<(string, V)>, r: seq<(string, V)>)
    requires |ks| == |vs| > 0 && Distinct(ks)
    requires var n := |ks| - 1;
             && Keys(prefix) == ks[..n]
             && |prefix| == n && (forall i :: 0 <= i < n ==> prefix[i] == (ks[i], vs[i]))
             && r == Assign(prefix, ks[n], vs[n])
    ensures |r| == |ks| && forall i :: 0 <= i < |ks| ==> r[i] == (ks[i], vs[i])
  {
    var n := |ks| - 1;
    assert ks[n] !in ks[..n];
    assert Search(Keys(prefix), ks[n]) == None;
    assert r == prefix + [(ks[n], vs[n])];
  }

  /** `Combine` of a non-empty list assigns its last pair to the combination of the rest. */
  lemma CombineUnfold<V>(ks: seq<string>, vs: seq<V>)
    requires |ks| == |vs| > 0
    ensures Combine(ks, vs) == Assign(Combine(ks[..|ks| - 1], vs[..|vs| - 1]), ks[|ks| - 1], vs[|vs| - 1])
  {
  }

  /** In `Combine`, a key maps to the value paired with its last occurrence. */
  lemma {:induction false} CombineLastWins<V>(ks: seq<string>, vs: seq<V>, i: nat)
    requires |ks| == |vs| && i < |ks|
    requires forall j :: i < j < |ks| ==> ks[j] != ks[i]
    ensures Lookup(Combine(ks, vs), ks[i]) == Some(vs[i])
  {
    var n := |ks| - 1;
    CombineUnfold(ks, vs);
    if i < n {
      CombineLastWins(ks[..n], vs[..n], i);
      AssignKeepsOther(Combine(ks[..n], vs[..n]), ks[n], vs[n], ks[i]);
    }
  }

  /** Assigning one key leaves the lookup of another alone. */
  lemma AssignKeepsOther<V>(a: seq<(string, V)>, k: string, v: V, other: string)
    requires other != k
    ensures Lookup(Assign(a, k, v), other) == Lookup(a, other)
  {
  }
}
