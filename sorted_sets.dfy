/** Sets of strings kept as their sorted list of elements: what
    `sorted(set(xs))` returns, built one element at a time. */
module SortedSets {
  import opened Text

  /** `s` with `x` added, in order and without a duplicate. */
  function Insert(s: seq<string>, x: string): (r: seq<string>)
    requires StrictlySorted(s)
    ensures StrictlySorted(r)
    ensures forall y :: y in r <==> y in s || y == x
  {
    if s == [] then [x]
    else if x == s[0] then s
    else if Less(x, s[0]) then
      assert forall i | 0 <= i < |s| :: Less(x, s[i]) by {
        forall i | 0 < i < |s| ensures Less(x, s[i]) {
          LessTransitive(x, s[0], s[i]);
        }
      }
      [x] + s
    else
      LessTotal(x, s[0]);
      var rest := Insert(s[1..], x);
      assert forall y | y in rest :: Less(s[0], y) by {
        forall y | y in rest ensures Less(s[0], y) {
          if y != x {
            var i :| 0 <= i < |s[1..]| && s[1..][i] == y;
            assert s[i + 1] == y;
          }
        }
      }
      assert s == [s[0]] + s[1..];
      [s[0]] + rest
  }

  /** `sorted(set(xs))`. */
  function SortedSetOf(xs: seq<string>): (r: seq<string>)
    ensures StrictlySorted(r)
    ensures forall y :: y in r <==> y in xs
  {
    if xs == [] then [] else Insert(SortedSetOf(xs[..|xs| - 1]), xs[|xs| - 1])
  }

  lemma HeadIsLeast(s: seq<string>, i: int)
    requires StrictlySorted(s) && 0 < i < |s|
    ensures s[i] != s[0] && !Less(s[i], s[0])
  {
    LessIrreflexive(s[0]);
    LessAsymmetric(s[0], s[i]);
  }

  /** A sorted duplicate-free list is determined by its elements: two with
      the same elements are equal. */
  lemma {:induction false} SortedUnique(a: seq<string>, b: seq<string>)
    requires StrictlySorted(a) && StrictlySorted(b)
    requires forall y :: y in a <==> y in b
    ensures a == b
    decreases |a|
  {
    assert a != [] ==> a[0] in b by {
      if a != [] {
        assert a[0] in a;
      }
    }
    assert b != [] ==> b[0] in a by {
      if b != [] {
        assert b[0] in b;
      }
    }
    if a != [] && b != [] {
      assert !Less(a[0], b[0]) by {
        var k :| 0 <= k < |b| && b[k] == a[0];
        if k > 0 {
          HeadIsLeast(b, k);
        } else {
          LessIrreflexive(a[0]);
        }
      }
      assert !Less(b[0], a[0]) by {
        var k :| 0 <= k < |a| && a[k] == b[0];
        if k > 0 {
          HeadIsLeast(a, k);
        } else {
          LessIrreflexive(b[0]);
        }
      }
      LessTotal(a[0], b[0]);
      forall y ensures y in a[1..] <==> y in b[1..] {
        if y in a[1..] {
          var i :| 0 <= i < |a[1..]| && a[1..][i] == y;
          HeadIsLeast(a, i + 1);
          assert y in b && y != b[0];
          var j :| 0 <= j < |b| && b[j] == y;
          assert y in b[1..] by {
            assert b[1..][j - 1] == y;
          }
        }
        if y in b[1..] {
          var i :| 0 <= i < |b[1..]| && b[1..][i] == y;
          HeadIsLeast(b, i + 1);
          assert y in a && y != a[0];
          var j :| 0 <= j < |a| && a[j] == y;
          assert y in a[1..] by {
            assert a[1..][j - 1] == y;
          }
        }
      }
      SortedUnique(a[1..], b[1..]);
      assert a == [a[0]] + a[1..] && b == [b[0]] + b[1..];
    }
  }
}
