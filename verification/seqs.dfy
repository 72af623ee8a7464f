/** Sequence helpers for Java's `List.remove(Object)`: the classes involved do
    not override `equals`, so removal compares object identity, which the
    models carry as an explicit key. */
module Seqs {
  import opened Wrappers

  /** Position of the first element whose key is `k`, if any. */
  function FirstIndex<T, K(==)>(s: seq<T>, key: T -> K, k: K): (r: Option<nat>)
    ensures r.Some? ==> r.value < |s| && key(s[r.value]) == k
    ensures r.Some? ==> forall j | 0 <= j < r.value :: key(s[j]) != k
    ensures r.None? <==> forall i | 0 <= i < |s| :: key(s[i]) != k
  {
    if |s| == 0 then None
    else if key(s[0]) == k then Some(0)
    else match FirstIndex(s[1..], key, k)
      case None => None
      case Some(i) => Some(i + 1)
  }

  /** Removes the first element whose key is `k`; a no-op when there is none. */
  function RemoveFirst<T, K(==)>(s: seq<T>, key: T -> K, k: K): (r: seq<T>)
    ensures FirstIndex(s, key, k).None? ==> r == s
    ensures FirstIndex(s, key, k).Some? ==>
              var i := FirstIndex(s, key, k).value; r == s[..i] + s[i + 1..]
  {
    if |s| == 0 then s
    else if key(s[0]) == k then s[1..]
    else [s[0]] + RemoveFirst(s[1..], key, k)
  }

  /** Removing an element that was just appended, and whose key occurs nowhere
      before it, restores the original sequence. */
  lemma RemoveFirstUndoesAppend<T, K>(s: seq<T>, key: T -> K, x: T)
    requires forall i | 0 <= i < |s| :: key(s[i]) != key(x)
    ensures RemoveFirst(s + [x], key, key(x)) == s
  {
    var t := s + [x];
    assert key(t[|s|]) == key(x);
    var i := FirstIndex(t, key, key(x)).value;
    assert i == |s|;
    assert t[..i] == s;
  }

  /** The first-match index of a concatenation: a match in the front part
      wins, otherwise a match in the back part, shifted past the front. */
  lemma FirstIndexAppend<T, K>(a: seq<T>, b: seq<T>, key: T -> K, k: K)
    ensures FirstIndex(a + b, key, k) ==
              match FirstIndex(a, key, k)
              case Some(i) => Some(i)
              case None =>
                match FirstIndex(b, key, k)
                case None => None
                case Some(j) => Some(|a| + j)
  {
    var ab := a + b;
    match FirstIndex(a, key, k)
    case Some(i) =>
      assert ab[i] == a[i];
      var r := FirstIndex(ab, key, k);
      assert r.Some?;
      assert r.value == i;
    case None =>
      match FirstIndex(b, key, k)
      case None =>
        assert forall i | 0 <= i < |ab| :: ab[i] == (if i < |a| then a[i] else b[i - |a|]);
      case Some(j) =>
        assert ab[|a| + j] == b[j];
        var r := FirstIndex(ab, key, k);
        assert r.Some?;
        assert r.value == |a| + j;
  }

  /** Applies `f` to every element, keeping the order. */
  function Map<A, B>(f: A -> B, s: seq<A>): (r: seq<B>)
    ensures |r| == |s|
    ensures forall i | 0 <= i < |s| :: r[i] == f(s[i])
  {
    if |s| == 0 then [] else [f(s[0])] + Map(f, s[1..])
  }

  lemma MapAppend<A, B>(f: A -> B, a: seq<A>, b: seq<A>)
    ensures Map(f, a + b) == Map(f, a) + Map(f, b)
  {
    var l, r := Map(f, a + b), Map(f, a) + Map(f, b);
    assert forall i | 0 <= i < |l| :: l[i] == r[i] by {
      forall i | 0 <= i < |l|
        ensures l[i] == r[i]
      {
        if i < |a| {
          assert (a + b)[i] == a[i];
        } else {
          assert (a + b)[i] == b[i - |a|];
        }
      }
    }
  }

  /** The elements satisfying `p`, in their original order. */
  function Filter<T>(p: T -> bool, s: seq<T>): (r: seq<T>)
    ensures |r| <= |s|
    ensures forall i | 0 <= i < |r| :: p(r[i]) && r[i] in s
    ensures forall x | x in s && p(x) :: x in r
  {
    if |s| == 0 then [] else (if p(s[0]) then [s[0]] else []) + Filter(p, s[1..])
  }

  lemma {:induction false} FilterAppend<T>(p: T -> bool, a: seq<T>, b: seq<T>)
    ensures Filter(p, a + b) == Filter(p, a) + Filter(p, b)
  {
    if |a| > 0 {
      assert (a + b)[1..] == a[1..] + b;
      FilterAppend(p, a[1..], b);
    } else {
      assert a + b == b;
    }
  }
}
