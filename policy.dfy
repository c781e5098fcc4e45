/** A policy as Python holds it: a dict from move to probability, which keeps its keys in insertion order. */
module PolicyDict {

  /** The entries (move, probability) in iteration order. */
  type Policy = seq<(string, real)>

  /** No move is a key twice. */
  predicate DistinctKeys(d: Policy)
  {
    forall i, j :: 0 <= i < j < |d| ==> d[i].0 != d[j].0
  }

  function Keys(d: Policy): set<string>
  {
    set i | 0 <= i < |d| :: d[i].0
  }

  /** The position of key k. */
  function KeyIndex(d: Policy, k: string): (i: nat)
    requires k in Keys(d)
    ensures i < |d| && d[i].0 == k
    ensures forall j :: 0 <= j < i ==> d[j].0 != k
  {
    if d[0].0 == k then 0
    else
      assert k in Keys(d[1..]) by {
        var m :| 0 <= m < |d| && d[m].0 == k;
        assert d[1..][m - 1].0 == k;
      }
      KeyIndex(d[1..], k) + 1
  }

  /** `d[k]`. */
  function Get(d: Policy, k: string): real
    requires k in Keys(d)
  {
    d[KeyIndex(d, k)].1
  }

  /** With distinct keys, the entry at any position holding k gives `d[k]`. */
  lemma GetAt(d: Policy, i: nat)
    requires DistinctKeys(d) && i < |d|
    ensures d[i].0 in Keys(d) && Get(d, d[i].0) == d[i].1
  {
  }

  /** `d[k] = v`: a new key goes to the end, an existing key keeps its place and takes the new value. */
  function Insert(d: Policy, k: string, v: real): (r: Policy)
    requires DistinctKeys(d)
    ensures DistinctKeys(r)
    ensures Keys(r) == Keys(d) + {k}
    ensures Get(r, k) == v
    ensures forall m :: m in Keys(d) && m != k ==> Get(r, m) == Get(d, m)
    ensures k in Keys(d) ==> |r| == |d| && forall i :: 0 <= i < |d| ==> r[i].0 == d[i].0
    ensures k !in Keys(d) ==> r == d + [(k, v)]
  {
    if k in Keys(d) then
      var i := KeyIndex(d, k);
      Overwrite(d, i, v);
      d[i := (k, v)]
    else
      Append(d, k, v);
      d + [(k, v)]
  }

  /** Overwriting the value at position i keeps every key where it is. */
  lemma Overwrite(d: Policy, i: nat, v: real)
    requires DistinctKeys(d) && i < |d|
    ensures var r := d[i := (d[i].0, v)];
      && DistinctKeys(r) && Keys(r) == Keys(d) && Get(r, d[i].0) == v
      && (forall m :: m in Keys(d) && m != d[i].0 ==> Get(r, m) == Get(d, m))
      && forall j :: 0 <= j < |d| ==> r[j].0 == d[j].0
  {
    var r := d[i := (d[i].0, v)];
    assert forall j :: 0 <= j < |d| ==> r[j].0 == d[j].0;
    assert Keys(r) == Keys(d) by {
      forall m | m in Keys(d) ensures m in Keys(r) { var j :| 0 <= j < |d| && d[j].0 == m; assert r[j].0 == m; }
    }
    forall m | m in Keys(d) && m != d[i].0 ensures Get(r, m) == Get(d, m) {
      GetAt(d, KeyIndex(d, m));
      GetAt(r, KeyIndex(d, m));
    }
    GetAt(r, i);
  }

  /** Appending an entry for a new key adds that key and changes no other value. */
  lemma Append(d: Policy, k: string, v: real)
    requires DistinctKeys(d) && k !in Keys(d)
    ensures var r := d + [(k, v)];
      && DistinctKeys(r) && Keys(r) == Keys(d) + {k} && Get(r, k) == v
      && forall m :: m in Keys(d) ==> Get(r, m) == Get(d, m)
  {
    var r := d + [(k, v)];
    assert Keys(r) == Keys(d) + {k} by {
      forall m | m in Keys(r) ensures m in Keys(d) + {k} { var j :| 0 <= j < |r| && r[j].0 == m; if j < |d| { assert d[j].0 == m; } }
      assert r[|d|].0 == k;
      forall m | m in Keys(d) ensures m in Keys(r) { var j :| 0 <= j < |d| && d[j].0 == m; assert r[j].0 == m; }
    }
    forall m | m in Keys(d) ensures Get(r, m) == Get(d, m) {
      GetAt(d, KeyIndex(d, m));
      GetAt(r, KeyIndex(d, m));
    }
    GetAt(r, |d|);
  }
}
