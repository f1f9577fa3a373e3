/** The list operations the Java code applies through streams and loops:
    `stream().filter(p).toList()` (and the explicit add-if loops), `limit(n)` and `List.remove(int)`. */
module Sequences {

  /** The elements of `s` that satisfy `keep`, in their original order. */
  function Filter<T>(s: seq<T>, keep: T -> bool): (r: seq<T>)
    ensures |r| <= |s|
    ensures forall i | 0 <= i < |r| :: keep(r[i]) && r[i] in s
  {
    if s == [] then []
    else (if keep(s[0]) then [s[0]] else []) + Filter(s[1..], keep)
  }

  /** Filtering commutes with concatenation, so it keeps the relative order of what it keeps. */
  lemma {:induction false} FilterConcat<T>(a: seq<T>, b: seq<T>, keep: T -> bool)
    ensures Filter(a + b, keep) == Filter(a, keep) + Filter(b, keep)
  {
    if a == [] {
      assert a + b == b;
    } else {
      assert (a + b)[0] == a[0];
      assert (a + b)[1..] == a[1..] + b;
      FilterConcat(a[1..], b, keep);
    }
  }

  /** One more element at the end is kept or dropped on its own. */
  lemma FilterAppend<T>(s: seq<T>, x: T, keep: T -> bool)
    ensures Filter(s + [x], keep) == Filter(s, keep) + (if keep(x) then [x] else [])
  {
    FilterConcat(s, [x], keep);
    assert [x][1..] == [];
  }

  /** An element is in the result exactly when it is in the input and satisfies the predicate. */
  lemma {:induction false} FilterMembership<T>(s: seq<T>, keep: T -> bool)
    ensures forall x :: x in Filter(s, keep) <==> x in s && keep(x)
  {
    if s != [] {
      FilterMembership(s[1..], keep);
      assert s == [s[0]] + s[1..];
    }
  }

  /** When nothing satisfies the predicate, nothing is kept. */
  lemma {:induction false} FilterNone<T>(s: seq<T>, keep: T -> bool)
    requires forall x | x in s :: !keep(x)
    ensures Filter(s, keep) == []
  {
    if s != [] {
      FilterNone(s[1..], keep);
    }
  }

  /** Nothing is dropped exactly when every element satisfies the predicate, and then the result is the input. */
  lemma {:induction false} FilterKeepsAll<T>(s: seq<T>, keep: T -> bool)
    ensures |Filter(s, keep)| == |s| <==> forall i | 0 <= i < |s| :: keep(s[i])
    ensures (forall i | 0 <= i < |s| :: keep(s[i])) ==> Filter(s, keep) == s
  {
    if s != [] {
      FilterKeepsAll(s[1..], keep);
      if forall i | 0 <= i < |s| :: keep(s[i]) {
        assert forall i | 0 <= i < |s[1..]| :: keep(s[1..][i]) by {
          forall i | 0 <= i < |s[1..]| ensures keep(s[1..][i]) {
            assert s[1..][i] == s[i + 1];
          }
        }
      } else {
        var j :| 0 <= j < |s| && !keep(s[j]);
        if j > 0 {
          assert s[1..][j - 1] == s[j];
        }
      }
    }
  }

  /** A predicate and its negation split the input between them. */
  lemma {:induction false} FilterPartition<T>(s: seq<T>, keep: T -> bool, drop: T -> bool)
    requires forall x :: drop(x) == !keep(x)
    ensures |Filter(s, keep)| + |Filter(s, drop)| == |s|
  {
    if s != [] {
      FilterPartition(s[1..], keep, drop);
    }
  }

  /** The positions of `s` whose element satisfies `keep`. */
  ghost function Positions<T>(s: seq<T>, keep: T -> bool): set<int> {
    set k | 0 <= k < |s| && keep(s[k])
  }

  /** The length of the result counts the positions whose element satisfies the predicate. */
  lemma {:induction false} FilterCountsPositions<T>(s: seq<T>, keep: T -> bool)
    ensures |Filter(s, keep)| == |Positions(s, keep)|
  {
    if s != [] {
      var init, x := s[..|s| - 1], s[|s| - 1];
      FilterCountsPositions(init, keep);
      assert s == init + [x];
      FilterAppend(init, x, keep);
      if keep(x) {
        assert Positions(s, keep) == Positions(init, keep) + {|s| - 1};
      } else {
        assert Positions(s, keep) == Positions(init, keep);
      }
    }
  }

  /** A weaker predicate keeps at least as many elements. */
  lemma {:induction false} FilterCountMonotone<T>(s: seq<T>, p: T -> bool, q: T -> bool)
    requires forall x :: p(x) ==> q(x)
    ensures |Filter(s, p)| <= |Filter(s, q)|
  {
    if s != [] {
      FilterCountMonotone(s[1..], p, q);
    }
  }

  /** Filtering twice is filtering once by the conjunction. */
  lemma {:induction false} FilterTwice<T>(s: seq<T>, p: T -> bool, q: T -> bool, both: T -> bool)
    requires forall x :: both(x) == (p(x) && q(x))
    ensures Filter(Filter(s, p), q) == Filter(s, both)
  {
    if s != [] {
      FilterTwice(s[1..], p, q, both);
      var head := if p(s[0]) then [s[0]] else [];
      FilterConcat(head, Filter(s[1..], p), q);
      if p(s[0]) {
        assert head[1..] == [];
      }
    }
  }

  /** When exactly the element at k fails the predicate, filtering removes just that element. */
  lemma {:induction false} FilterRemovesOne<T>(s: seq<T>, k: nat, keep: T -> bool)
    requires k < |s|
    requires !keep(s[k])
    requires forall i | 0 <= i < |s| && i != k :: keep(s[i])
    ensures Filter(s, keep) == s[..k] + s[k + 1..]
  {
    var tail := s[1..];
    if k == 0 {
      forall i | 0 <= i < |tail| ensures keep(tail[i]) {
        assert tail[i] == s[i + 1];
      }
      FilterKeepsAll(tail, keep);
      assert s[..0] + s[1..] == tail;
    } else {
      forall i | 0 <= i < |tail| && i != k - 1 ensures keep(tail[i]) {
        assert tail[i] == s[i + 1];
      }
      FilterRemovesOne(tail, k - 1, keep);
      assert keep(s[0]);
      assert [s[0]] + tail[..k - 1] == s[..k];
      assert tail[k..] == s[k + 1..];
    }
  }

  /** The first n elements (`stream().limit(n)`). */
  function Take<T>(s: seq<T>, n: nat): (r: seq<T>)
    ensures |r| == (if |s| <= n then |s| else n)
    ensures r == s[..|r|]
  {
    if |s| <= n then s else s[..n]
  }

  /** The sequence without its element at k (`List.remove(int)`). */
  function RemoveAt<T>(s: seq<T>, k: nat): (r: seq<T>)
    requires k < |s|
    ensures |r| == |s| - 1
    ensures forall i | 0 <= i < k :: r[i] == s[i]
    ensures forall i | k <= i < |r| :: r[i] == s[i + 1]
  {
    s[..k] + s[k + 1..]
  }
}
