/** What a Python dict display (`{k1: v1, k2: v2, ...}`) or dict comprehension
    (`{k(x): v(x) for x in xs}`) builds from the key/value pairs it produces in
    order: every key that occurs is present, and a later pair for a key
    replaces an earlier one. */
module PyDict {

  /** Pair `i` is the last one in `ps` for its key. */
  ghost predicate IsLastFor<K, V>(ps: seq<(K, V)>, i: int)
    requires 0 <= i < |ps|
  {
    forall j :: i < j < |ps| ==> ps[j].0 != ps[i].0
  }

  /** The dictionary built from `ps`, inserting the pairs left to right: its
      keys are exactly the keys of the pairs. */
  function BuildDict<K, V>(ps: seq<(K, V)>): (d: map<K, V>)
    ensures d.Keys == set i | 0 <= i < |ps| :: ps[i].0
  {
    if ps == [] then map[]
    else
      var init := ps[..|ps| - 1];
      var d0 := BuildDict(init);
      assert forall i :: 0 <= i < |init| ==> init[i] == ps[i];
      d0[ps[|ps| - 1].0 := ps[|ps| - 1].1]
  }

  /** The last pair for a key gives that key's value. */
  lemma {:induction false} BuildDictLast<K, V>(ps: seq<(K, V)>, i: int)
    requires 0 <= i < |ps| && IsLastFor(ps, i)
    ensures ps[i].0 in BuildDict(ps) && BuildDict(ps)[ps[i].0] == ps[i].1
  {
    if i < |ps| - 1 {
      var init := ps[..|ps| - 1];
      assert init[i] == ps[i];
      assert IsLastFor(init, i) by {
        forall j | i < j < |init| ensures init[j].0 != init[i].0 {
          assert init[j] == ps[j];
        }
      }
      BuildDictLast(init, i);
    }
  }

  /** A dictionary built from pairs with pairwise distinct keys has one entry per pair. */
  lemma {:induction false} BuildDictSize<K, V>(ps: seq<(K, V)>)
    requires forall i, j :: 0 <= i < j < |ps| ==> ps[i].0 != ps[j].0
    ensures |BuildDict(ps)| == |ps|
  {
    if ps != [] {
      var init := ps[..|ps| - 1];
      BuildDictSize(init);
      assert ps[|ps| - 1].0 !in BuildDict(init);
    }
  }

  /** Adding one more pair whose key is already present leaves the size unchanged. */
  lemma BuildDictRepeatSize<K, V>(ps: seq<(K, V)>)
    requires |ps| >= 1 && ps[|ps| - 1].0 in BuildDict(ps[..|ps| - 1])
    ensures |BuildDict(ps)| == |BuildDict(ps[..|ps| - 1])|
  {
    var init := ps[..|ps| - 1];
    var k := ps[|ps| - 1].0;
    assert BuildDict(ps) == BuildDict(init)[k := ps[|ps| - 1].1];
    assert BuildDict(ps).Keys == BuildDict(init).Keys;
  }
}
