/** Python `dict[str, str]` values as the bot uses them: an insertion-ordered
    sequence of (key, value) entries with distinct keys.  Assigning an existing
    key keeps its position, a new key goes to the end, `pop` removes it. */
module Dicts {

  type Entry = (string, string)

  predicate DistinctKeys(d: seq<Entry>) {
    forall i, j :: 0 <= i < j < |d| ==> d[i].0 != d[j].0
  }

  predicate HasKey(d: seq<Entry>, k: string) {
    exists i :: 0 <= i < |d| && d[i].0 == k
  }

  /** The mapping a dict stands for; for a repeated key the later entry wins,
      as it does when a loop assigns the same key twice. */
  function ToMap(d: seq<Entry>): (m: map<string, string>)
    ensures forall k :: k in m <==> HasKey(d, k)
  {
    if d == [] then map[]
    else
      var front := d[..|d| - 1];
      var last := d[|d| - 1];
      assert forall k :: HasKey(d, k) <==> k == last.0 || HasKey(front, k) by {
        forall k | HasKey(d, k) && k != last.0 ensures HasKey(front, k) {
          var i :| 0 <= i < |d| && d[i].0 == k;
          assert front[i].0 == k;
        }
      }
      ToMap(front)[last.0 := last.1]
  }

  lemma {:induction false} ToMapAt(d: seq<Entry>, i: int)
    requires DistinctKeys(d) && 0 <= i < |d|
    ensures d[i].0 in ToMap(d) && ToMap(d)[d[i].0] == d[i].1
  {
    if i < |d| - 1 {
      ToMapAt(d[..|d| - 1], i);
    }
  }

  /** The first index holding `k`, or `|d|`. */
  function IndexOf(d: seq<Entry>, k: string): (i: nat)
    ensures i <= |d|
    ensures i < |d| ==> d[i].0 == k
    ensures forall j :: 0 <= j < i ==> d[j].0 != k
  {
    if d == [] then 0
    else if d[0].0 == k then 0
    else IndexOf(d[1..], k) + 1
  }

  /** `d[k] = v`. */
  function Put(d: seq<Entry>, k: string, v: string): (r: seq<Entry>)
    requires DistinctKeys(d)
    ensures DistinctKeys(r)
    ensures ToMap(r) == ToMap(d)[k := v]
    ensures HasKey(d, k) ==> |r| == |d| && forall j :: 0 <= j < |d| ==> r[j].0 == d[j].0
    ensures !HasKey(d, k) ==> r == d + [(k, v)]
    ensures forall e | e in r :: e == (k, v) || e in d
  {
    var i := IndexOf(d, k);
    var r := if i < |d| then d[i := (k, v)] else d + [(k, v)];
    assert r[i] == (k, v);
    assert forall j :: 0 <= j < |r| && j != i ==> r[j] == d[j];
    PutMap(d, r, i, k, v);
    r
  }

  lemma PutMap(d: seq<Entry>, r: seq<Entry>, i: nat, k: string, v: string)
    requires DistinctKeys(d) && DistinctKeys(r)
    requires i <= |d| && |r| == if i < |d| then |d| else |d| + 1
    requires r[i] == (k, v) && (i < |d| ==> d[i].0 == k)
    requires forall j :: 0 <= j < |r| && j != i ==> r[j] == d[j]
    ensures ToMap(r) == ToMap(d)[k := v]
  {
    forall key | HasKey(d, key) ensures HasKey(r, key) {
      var j :| 0 <= j < |d| && d[j].0 == key;
      if j != i { assert r[j].0 == key; }
    }
    forall key | HasKey(r, key) && key != k ensures HasKey(d, key) {
      var j :| 0 <= j < |r| && r[j].0 == key;
      assert d[j].0 == key;
    }
    forall key | key in ToMap(r)
      ensures ToMap(r)[key] == ToMap(d)[k := v][key]
    {
      var j :| 0 <= j < |r| && r[j].0 == key;
      ToMapAt(r, j);
      if j != i {
        ToMapAt(d, j);
      }
    }
  }

  /** `d.pop(k, None)`. */
  function Remove(d: seq<Entry>, k: string): (r: seq<Entry>)
    requires DistinctKeys(d)
    ensures DistinctKeys(r)
    ensures ToMap(r) == ToMap(d) - {k}
    ensures !HasKey(d, k) ==> r == d
    ensures HasKey(d, k) ==> exists i :: 0 <= i < |d| && d[i].0 == k && r == d[..i] + d[i + 1..]
    ensures forall e | e in r :: e in d
  {
    var i := IndexOf(d, k);
    if i == |d| then d
    else
      var r := d[..i] + d[i + 1..];
      assert forall j :: 0 <= j < i ==> r[j] == d[j];
      assert forall j :: i <= j < |r| ==> r[j] == d[j + 1];
      RemoveDistinct(d, r, i);
      RemoveMap(d, r, i, k);
      r
  }

  lemma RemoveDistinct(d: seq<Entry>, r: seq<Entry>, i: nat)
    requires DistinctKeys(d) && i < |d| && |r| == |d| - 1
    requires forall j :: 0 <= j < i ==> r[j] == d[j]
    requires forall j :: i <= j < |r| ==> r[j] == d[j + 1]
    ensures DistinctKeys(r)
  {
    forall a, b | 0 <= a < b < |r| ensures r[a].0 != r[b].0 {
      var a', b' := if a < i then a else a + 1, if b < i then b else b + 1;
      assert r[a] == d[a'] && r[b] == d[b'];
    }
  }

  /** Entry `j` of `d`, other than the removed entry `i`, is still in `r`. */
  lemma RemoveKeeps(d: seq<Entry>, r: seq<Entry>, i: nat, j: nat)
    requires i < |d| && j < |d| && j != i && |r| == |d| - 1
    requires forall j :: 0 <= j < i ==> r[j] == d[j]
    requires forall j :: i <= j < |r| ==> r[j] == d[j + 1]
    ensures j < i ==> r[j] == d[j]
    ensures j > i ==> r[j - 1] == d[j]
  {
    if j > i {
      var j' := j - 1;
      assert i <= j' < |r|;
      assert r[j'] == d[j' + 1];
    }
  }

  lemma RemoveAdds(d: seq<Entry>, r: seq<Entry>, i: nat, k: string, key: string)
    requires DistinctKeys(d) && i < |d| && d[i].0 == k && |r| == |d| - 1
    requires forall j :: 0 <= j < i ==> r[j] == d[j]
    requires forall j :: i <= j < |r| ==> r[j] == d[j + 1]
    requires key in ToMap(r)
    ensures key in ToMap(d) && key != k
  {
    var j :| 0 <= j < |r| && r[j].0 == key;
    var j' := if j < i then j else j + 1;
    assert r[j] == d[j'];
    assert HasKey(d, key);
  }

  lemma RemoveMap(d: seq<Entry>, r: seq<Entry>, i: nat, k: string)
    requires DistinctKeys(d) && DistinctKeys(r) && i < |d| && d[i].0 == k && |r| == |d| - 1
    requires forall j :: 0 <= j < i ==> r[j] == d[j]
    requires forall j :: i <= j < |r| ==> r[j] == d[j + 1]
    ensures ToMap(r) == ToMap(d) - {k}
  {
    var mr, md := ToMap(r), ToMap(d);
    forall key | key in md && key != k ensures key in mr && mr[key] == md[key] {
      assert HasKey(d, key);
      var j :| 0 <= j < |d| && d[j].0 == key;
      RemoveKeeps(d, r, i, j);
      var j' := if j < i then j else j - 1;
      ToMapAt(d, j);
      ToMapAt(r, j');
    }
    forall key | key in mr ensures key in md && key != k {
      RemoveAdds(d, r, i, k, key);
    }
    assert mr.Keys == md.Keys - {k};
  }
}
