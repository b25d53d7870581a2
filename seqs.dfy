// The two array operations the source leans on everywhere: `find`/`findIndex`
// (the first element that satisfies a test) and `filter`.

module Seqs {
  import opened Types

  /** The index of the first element of `s` that satisfies `p`, if any. */
  function IndexWhere<T>(s: seq<T>, p: T -> bool): (r: Option<nat>)
    ensures r.Some? ==> r.value < |s| && p(s[r.value])
    ensures r.Some? ==> forall j :: 0 <= j < r.value ==> !p(s[j])
    ensures r.None? ==> forall j :: 0 <= j < |s| ==> !p(s[j])
    decreases |s|
  {
    if |s| == 0 then None
    else if p(s[0]) then Some(0)
    else
      match IndexWhere(s[1..], p)
      case None => None
      case Some(i) => Some(i + 1)
  }

  /** The elements of `s` that satisfy `p`, in their original order. */
  function Filter<T>(s: seq<T>, p: T -> bool): (r: seq<T>)
    ensures |r| <= |s|
    ensures forall x :: x in r ==> x in s && p(x)
    ensures forall i :: 0 <= i < |s| && p(s[i]) ==> s[i] in r
    ensures |r| == |s| <==> forall i :: 0 <= i < |s| ==> p(s[i])
    ensures |r| == |s| ==> r == s
    decreases |s|
  {
    if |s| == 0 then []
    else
      var front, last := s[..|s| - 1], s[|s| - 1];
      assert s == front + [last];
      if p(last) then Filter(front, p) + [last] else Filter(front, p)
  }

  /**
   * Filtering keeps the relative order of what it keeps, so a relation that
   * holds between every earlier and later element still holds afterwards.
   */
  lemma {:induction false} FilterPairwise<T>(s: seq<T>, p: T -> bool, rel: (T, T) -> bool)
    requires forall i, j :: 0 <= i < j < |s| ==> rel(s[i], s[j])
    ensures forall i, j :: 0 <= i < j < |Filter(s, p)| ==> rel(Filter(s, p)[i], Filter(s, p)[j])
    decreases |s|
  {
    if |s| > 0 {
      var front, last := s[..|s| - 1], s[|s| - 1];
      FilterPairwise(front, p, rel);
      var rest := Filter(front, p);
      if p(last) {
        var r := Filter(s, p);
        assert r == rest + [last];
        forall i, j | 0 <= i < j < |r| ensures rel(r[i], r[j]) {
          if j == |rest| {
            assert r[i] == rest[i] && rest[i] in front;
            var k :| 0 <= k < |front| && front[k] == rest[i];
            assert rel(s[k], s[|s| - 1]);
          } else {
            assert r[i] == rest[i] && r[j] == rest[j];
          }
        }
      }
    }
  }

  /** Filtering a sequence with one more element at the end. */
  lemma FilterSnoc<T>(s: seq<T>, x: T, p: T -> bool)
    ensures Filter(s + [x], p) == Filter(s, p) + (if p(x) then [x] else [])
  {
    assert (s + [x])[..|s|] == s;
  }

  /**
   * Filtering distributes over concatenation. With the one-element case
   * this pins the result down: the kept elements, each as often as it
   * occurs, in their original order.
   */
  lemma {:induction false} FilterAppend<T>(a: seq<T>, b: seq<T>, p: T -> bool)
    ensures Filter(a + b, p) == Filter(a, p) + Filter(b, p)
    decreases |b|
  {
    if |b| == 0 {
      assert a + b == a;
    } else {
      var front := b[..|b| - 1];
      assert (a + b)[..|a + b| - 1] == a + front;
      FilterAppend(a, front, p);
    }
  }

  /** A single element is kept exactly when it passes the test. */
  lemma FilterSingleton<T>(x: T, p: T -> bool)
    ensures Filter([x], p) == if p(x) then [x] else []
  {
    assert [x][..0] == [];
  }
}
