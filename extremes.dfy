/** Python's `max` and `min` over lists, and `min`/`max` with a key, which
    return the FIRST item whose key is extreme. */
module Extremes {

  /** `max(xs)` on a non-empty list of floats. */
  function MaxOf(xs: seq<real>): (m: real)
    requires xs != []
    ensures m in xs
    ensures forall i :: 0 <= i < |xs| ==> xs[i] <= m
  {
    if |xs| == 1 then xs[0]
    else
      var m := MaxOf(xs[..|xs| - 1]);
      if xs[|xs| - 1] > m then xs[|xs| - 1] else m
  }

  /** `min(xs)` on a non-empty list of floats. */
  function MinOf(xs: seq<real>): (m: real)
    requires xs != []
    ensures m in xs
    ensures forall i :: 0 <= i < |xs| ==> m <= xs[i]
  {
    if |xs| == 1 then xs[0]
    else
      var m := MinOf(xs[..|xs| - 1]);
      if xs[|xs| - 1] < m then xs[|xs| - 1] else m
  }

  /** The position `min(range(len(keys)), key=keys.__getitem__)` picks:
      a smallest key, the first one on ties. */
  function ArgMinFirst(keys: seq<int>): (i: nat)
    requires keys != []
    ensures i < |keys|
    ensures forall j :: 0 <= j < |keys| ==> keys[i] <= keys[j]
    ensures forall j :: 0 <= j < i ==> keys[i] < keys[j]
  {
    if |keys| == 1 then 0
    else
      var i := ArgMinFirst(keys[..|keys| - 1]);
      if keys[|keys| - 1] < keys[i] then |keys| - 1 else i
  }

  /** The position `max` with a key picks: a largest key, the first one on ties. */
  function ArgMaxFirst(keys: seq<int>): (i: nat)
    requires keys != []
    ensures i < |keys|
    ensures forall j :: 0 <= j < |keys| ==> keys[j] <= keys[i]
    ensures forall j :: 0 <= j < i ==> keys[j] < keys[i]
  {
    if |keys| == 1 then 0
    else
      var i := ArgMaxFirst(keys[..|keys| - 1]);
      if keys[|keys| - 1] > keys[i] then |keys| - 1 else i
  }

  /** The first-extreme position is the only one with both properties. */
  lemma ArgMinFirstUnique(keys: seq<int>, k: nat)
    requires k < |keys|
    requires forall j :: 0 <= j < |keys| ==> keys[k] <= keys[j]
    requires forall j :: 0 <= j < k ==> keys[k] < keys[j]
    ensures ArgMinFirst(keys) == k
  {
    var i := ArgMinFirst(keys);
    assert !(i < k) && !(k < i);
  }

  /** A key equal to the largest one sits no earlier than the first largest. */
  lemma ArgMaxFirstTie(keys: seq<int>, j: nat)
    requires j < |keys| && keys[j] == keys[ArgMaxFirst(keys)]
    ensures ArgMaxFirst(keys) <= j
  {
  }
}
