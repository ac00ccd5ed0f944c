/** Generic sequence helpers shared by the order-form model: the JavaScript
    `Array.prototype.filter((_, i) => i !== index)` removal, `indexOf`, and
    duplicate-free sequences. */
module Seqs {

  datatype Option<+T> = None | Some(value: T)

  /** True when no value occurs twice in `s`. */
  predicate NoDuplicates<T(==)>(s: seq<T>) {
    forall i, j :: 0 <= i < j < |s| ==> s[i] != s[j]
  }

  /** `s.filter((_, i) => i !== index)`: drops the element at `index`, and
      nothing when `index` is past the end. */
  function RemoveAt<T>(s: seq<T>, index: nat): (r: seq<T>)
    ensures index < |s| ==> |r| == |s| - 1
    ensures index < |s| ==> forall k :: 0 <= k < |r| ==> r[k] == (if k < index then s[k] else s[k + 1])
    ensures index >= |s| ==> r == s
  {
    if index < |s| then s[..index] + s[index + 1..] else s
  }

  /** The head and tail of a concatenation with a non-empty front. */
  lemma TailOfAppend<T>(a: seq<T>, b: seq<T>)
    requires a != []
    ensures a + b != [] && (a + b)[0] == a[0] && (a + b)[1..] == a[1..] + b
  {
  }

  lemma AppendAssoc<T>(x: seq<T>, y: seq<T>, z: seq<T>)
    ensures (x + y) + z == x + (y + z)
  {
  }

  lemma EmptyAppend<T>(a: seq<T>, b: seq<T>)
    requires a == []
    ensures a + b == b
  {
  }

  lemma NoDuplicatesCons<T>(x: T, s: seq<T>)
    ensures NoDuplicates([x] + s) <==> x !in s && NoDuplicates(s)
  {
    var t := [x] + s;
    assert forall k :: 0 <= k < |s| ==> t[k + 1] == s[k];
    if NoDuplicates(t) {
      forall k | 0 <= k < |s| ensures s[k] != x {
        assert t[0] != t[k + 1];
      }
      forall i, j | 0 <= i < j < |s| ensures s[i] != s[j] {
        assert t[i + 1] != t[j + 1];
      }
    }
    if x !in s && NoDuplicates(s) {
      forall i, j | 0 <= i < j < |t| ensures t[i] != t[j] {
        if i > 0 {
          assert t[i] == s[i - 1] && t[j] == s[j - 1];
        } else {
          assert t[j] == s[j - 1];
        }
      }
    }
  }

  /** A sequence that never decreases from one element to the next never
      decreases at all. */
  lemma {:induction false} StepwiseNondecreasing(s: seq<int>, i: nat, j: nat)
    requires i <= j < |s|
    requires forall k :: 0 < k < |s| ==> s[k - 1] <= s[k]
    ensures s[i] <= s[j]
    decreases j - i
  {
    if i < j {
      StepwiseNondecreasing(s, i + 1, j);
    }
  }

  /** The element at `index` splits `s` into what comes before and after it,
      and removing it joins the two. */
  lemma SplitAround<T>(s: seq<T>, index: nat)
    requires index < |s|
    ensures s == s[..index] + [s[index]] + s[index + 1..]
    ensures RemoveAt(s, index) == s[..index] + s[index + 1..]
  {
  }

  /** `s.indexOf(x)`, with "not found" reported as `|s|` instead of -1. */
  function IndexOf<T(==)>(s: seq<T>, x: T): (k: nat)
    ensures k <= |s|
    ensures k < |s| ==> s[k] == x
    ensures forall j :: 0 <= j < k ==> s[j] != x
    ensures k == |s| <==> x !in s
  {
    if s == [] then 0
    else if s[0] == x then 0
    else 1 + IndexOf(s[1..], x)
  }

  /** `s.filter(x => x !== v)`: every occurrence of `v` removed. */
  function Without<T(==,!new)>(s: seq<T>, v: T): (r: seq<T>)
    ensures forall x :: x in r <==> x in s && x != v
    ensures |r| <= |s|
    ensures v !in s ==> r == s
    ensures NoDuplicates(s) ==> NoDuplicates(r)
  {
    if s == [] then []
    else if s[0] == v then Without(s[1..], v)
    else
      var rest := Without(s[1..], v);
      assert NoDuplicates(s) ==> s[0] !in s[1..] && NoDuplicates(s[1..]);
      [s[0]] + rest
  }

  /** `[...new Set(s)]`: the distinct values of `s` in order of first occurrence. */
  function Distinct<T(==,!new)>(s: seq<T>): (r: seq<T>)
    ensures forall x :: x in r <==> x in s
    ensures NoDuplicates(r)
    ensures |r| <= |s|
  {
    if s == [] then []
    else
      var front := Distinct(s[..|s| - 1]);
      assert forall x :: x in s <==> x in s[..|s| - 1] || x == s[|s| - 1];
      if s[|s| - 1] in front then front else front + [s[|s| - 1]]
  }

  /** Looking up a member of a prefix finds it inside the prefix. */
  lemma IndexOfPrefix<T>(s: seq<T>, n: nat, x: T)
    requires n <= |s| && x in s[..n]
    ensures IndexOf(s, x) == IndexOf(s[..n], x)
  {
    assert forall j :: 0 <= j < n ==> s[..n][j] == s[j];
  }

  /** `Distinct` keeps the members in the order of their first occurrence. */
  lemma {:induction false} DistinctInOrder<T(!new)>(s: seq<T>)
    ensures forall i, j :: 0 <= i < j < |Distinct(s)| ==> IndexOf(s, Distinct(s)[i]) < IndexOf(s, Distinct(s)[j])
  {
    if s != [] {
      var p, y := s[..|s| - 1], s[|s| - 1];
      var front := Distinct(p);
      DistinctInOrder(p);
      forall x | x in p ensures IndexOf(s, x) == IndexOf(p, x) < |p| {
        IndexOfPrefix(s, |s| - 1, x);
      }
      if y !in front {
        assert forall j :: 0 <= j < |p| ==> s[j] == p[j];
        assert IndexOf(s, y) == |p|;
        var r := front + [y];
        forall i, j | 0 <= i < j < |r| ensures IndexOf(s, r[i]) < IndexOf(s, r[j]) {
          assert r[i] == front[i] && r[i] in p;
          if j < |front| {
            assert r[j] == front[j] && r[j] in p;
          }
        }
      }
    }
  }

  /** The guarded removal used by every "remove row/line/item" handler:
      refused (`None`) when exactly one element is left, otherwise
      `RemoveAt`. It never empties a non-empty sequence. */
  function RemoveKeepingOne<T>(s: seq<T>, index: nat): (r: Option<seq<T>>)
    ensures r.None? <==> |s| == 1
    ensures r.Some? ==> r.value == RemoveAt(s, index)
    ensures |s| >= 1 ==> r.None? || |r.value| >= 1
  {
    if |s| == 1 then None else Some(RemoveAt(s, index))
  }
}
