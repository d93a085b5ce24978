/** Counted entries, and sums of their counts: what every later module conserves. */
module Entries {

  datatype Option<+T> = None | Some(value: T)

  datatype Result<+T, +E> = Ok(value: T) | Err(error: E)

  datatype Entry<+K> = Entry(item: K, count: int)

  /** What one entry contributes to the sum over the items satisfying `p`. */
  function Part<K>(e: Entry<K>, p: K -> bool): int {
    if p(e.item) then e.count else 0
  }

  /** Sum of the counts of the entries whose item satisfies `p`. */
  function Sum<K>(es: seq<Entry<K>>, p: K -> bool): int {
    if |es| == 0 then 0 else Sum(es[..|es| - 1], p) + Part(es[|es| - 1], p)
  }

  /** The selections used below are named, so that equal selections are equal terms. */
  function All<K>(): K -> bool { _ => true }

  function OfClass<K, C(==)>(id: K -> C, c: C): K -> bool { k => id(k) == c }

  /** `p` does not tell apart two keys that the key type's own equality identifies. */
  ghost predicate Respects<K(!new), C>(p: K -> bool, id: K -> C) {
    forall a, b :: id(a) == id(b) ==> p(a) == p(b)
  }

  ghost predicate AllPositive<K>(es: seq<Entry<K>>) {
    forall i :: 0 <= i < |es| ==> es[i].count > 0
  }

  /** No two entries hold equal keys. */
  ghost predicate Distinct<K, C>(es: seq<Entry<K>>, id: K -> C) {
    forall i, j :: 0 <= i < j < |es| ==> id(es[i].item) != id(es[j].item)
  }

  predicate Holds<K, C(==)>(es: seq<Entry<K>>, id: K -> C, c: C) {
    exists i :: 0 <= i < |es| && id(es[i].item) == c
  }

  /** The parts of `ss`, one after the other. */
  function Flatten<T>(ss: seq<seq<T>>): seq<T> {
    if |ss| == 0 then [] else Flatten(ss[..|ss| - 1]) + ss[|ss| - 1]
  }

  /** How many elements the first `n` parts have. */
  function LengthBefore<T>(ss: seq<seq<T>>, n: nat): nat
    requires n <= |ss|
  {
    if n == 0 then 0 else LengthBefore(ss, n - 1) + |ss[n - 1]|
  }

  lemma {:induction false} LengthBeforePrefix<T>(ss: seq<seq<T>>, m: nat, n: nat)
    requires n <= m <= |ss|
    ensures LengthBefore(ss[..m], n) == LengthBefore(ss, n)
  {
    if n > 0 {
      LengthBeforePrefix(ss, m, n - 1);
    }
  }

  /** Element `j` of part `i` stands after all elements of the parts before it. */
  lemma {:induction false} FlattenAt<T>(ss: seq<seq<T>>, i: nat, j: nat)
    requires i < |ss| && j < |ss[i]|
    ensures |Flatten(ss)| == LengthBefore(ss, |ss|)
    ensures LengthBefore(ss, i) + j < |Flatten(ss)| && Flatten(ss)[LengthBefore(ss, i) + j] == ss[i][j]
  {
    var last := |ss| - 1;
    FlattenLength(ss[..last]);
    LengthBeforePrefix(ss, last, last);
    if i < last {
      FlattenAt(ss[..last], i, j);
      LengthBeforePrefix(ss, last, i);
    }
  }

  lemma {:induction false} FlattenLength<T>(ss: seq<seq<T>>)
    ensures |Flatten(ss)| == LengthBefore(ss, |ss|)
  {
    if |ss| > 0 {
      FlattenLength(ss[..|ss| - 1]);
      LengthBeforePrefix(ss, |ss| - 1, |ss| - 1);
    }
  }

  lemma {:induction false} SumConcat<K>(a: seq<Entry<K>>, b: seq<Entry<K>>, p: K -> bool)
    ensures Sum(a + b, p) == Sum(a, p) + Sum(b, p)
  {
    if |b| == 0 {
      assert a + b == a;
    } else {
      assert (a + b)[..|a + b| - 1] == a + b[..|b| - 1];
      SumConcat(a, b[..|b| - 1], p);
    }
  }

  lemma {:induction false} SumUpdate<K>(es: seq<Entry<K>>, i: nat, e: Entry<K>, p: K -> bool)
    requires i < |es|
    ensures Sum(es[i := e], p) == Sum(es, p) - Part(es[i], p) + Part(e, p)
  {
    var last := |es| - 1;
    if i == last {
      assert es[i := e][..last] == es[..last];
    } else {
      assert es[i := e][..last] == es[..last][i := e];
      SumUpdate(es[..last], i, e, p);
    }
  }

  /** A selection that two others partition sums to the sum of theirs. */
  lemma {:induction false} SumSplit<K>(es: seq<Entry<K>>, p: K -> bool, p1: K -> bool, p2: K -> bool)
    requires forall i :: 0 <= i < |es| ==> (p(es[i].item) <==> p1(es[i].item) || p2(es[i].item))
    requires forall i :: 0 <= i < |es| ==> !(p1(es[i].item) && p2(es[i].item))
    ensures Sum(es, p) == Sum(es, p1) + Sum(es, p2)
  {
    if |es| > 0 {
      SumSplit(es[..|es| - 1], p, p1, p2);
    }
  }

  lemma {:induction false} SumSame<K>(es: seq<Entry<K>>, p: K -> bool, q: K -> bool)
    requires forall i :: 0 <= i < |es| ==> p(es[i].item) == q(es[i].item)
    ensures Sum(es, p) == Sum(es, q)
  {
    if |es| > 0 {
      SumSame(es[..|es| - 1], p, q);
    }
  }

  /** With positive counts a selection's sum is positive exactly when the selection meets the entries. */
  lemma {:induction false} SumPositive<K>(es: seq<Entry<K>>, p: K -> bool)
    requires AllPositive(es)
    ensures Sum(es, p) >= 0
    ensures Sum(es, p) > 0 <==> exists i :: 0 <= i < |es| && p(es[i].item)
  {
    if |es| > 0 {
      var init := es[..|es| - 1];
      SumPositive(init, p);
      if p(es[|es| - 1].item) {
      } else if i :| 0 <= i < |es| && p(es[i].item) {
        assert p(init[i].item);
      }
    }
  }

  /** The key classes met in `es`. */
  function Classes<K, C(==)>(es: seq<Entry<K>>, id: K -> C): (cs: set<C>)
    ensures forall i :: 0 <= i < |es| ==> id(es[i].item) in cs
    ensures forall c | c in cs :: Holds(es, id, c)
  {
    if |es| == 0 then {}
    else
      var cs := Classes(es[..|es| - 1], id);
      assert forall c | c in cs :: Holds(es, id, c) by {
        forall c | c in cs ensures Holds(es, id, c) {
          var i :| 0 <= i < |es| - 1 && id(es[..|es| - 1][i].item) == c;
          assert id(es[i].item) == c;
        }
      }
      cs + {id(es[|es| - 1].item)}
  }

  /** Entries with pairwise unequal keys have as many key classes as there are entries. */
  lemma {:induction false} DistinctCount<K, C>(es: seq<Entry<K>>, id: K -> C)
    requires Distinct(es, id)
    ensures |Classes(es, id)| == |es|
  {
    if |es| > 0 {
      var init := es[..|es| - 1];
      DistinctCount(init, id);
      assert id(es[|es| - 1].item) !in Classes(init, id);
    }
  }
}
