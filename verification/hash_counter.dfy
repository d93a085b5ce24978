/** `HashCounter`: a fixed row of buckets; the hash of a key selects its bucket. */
module HashCounters {
  import opened Entries
  import opened Buckets

  /** A key type as the collector sees it. `id` maps a key to its equality class: Rust's `Eq` is an
      equivalence, and two keys are equal exactly when their classes are. */
  datatype Keys<!K, !C> = Keys(id: K -> C, hash: K -> nat, buckets: nat)

  /** Equal keys must hash equally, and there is at least one bucket. */
  ghost predicate Lawful<K(!new), C>(keys: Keys<K, C>) {
    keys.buckets > 0 && forall a, b :: keys.id(a) == keys.id(b) ==> keys.hash(a) == keys.hash(b)
  }

  function Slot<K, C>(keys: Keys<K, C>, key: K): nat
    requires keys.buckets > 0
  {
    keys.hash(key) % keys.buckets
  }

  type Table<K> = seq<seq<Entry<K>>>

  datatype AddedTable<K> = AddedTable(table: Table<K>, evicted: Option<Entry<K>>)

  function TableAdd<K, C(==)>(t: Table<K>, keys: Keys<K, C>, key: K, count: int): AddedTable<K>
    requires |t| == keys.buckets > 0
  {
    var a := BucketAdd(t[Slot(keys, key)], keys.id, key, count);
    AddedTable(t[Slot(keys, key) := a.bucket], a.evicted)
  }

  /** Each resident sits in the bucket its hash selects; within a bucket keys are unequal. */
  ghost predicate TableOk<K, C>(t: Table<K>, keys: Keys<K, C>) {
    && |t| <= keys.buckets && keys.buckets > 0
    && (forall i :: 0 <= i < |t| ==> BucketOk(t[i], keys.id))
    && (forall i, e :: 0 <= i < |t| && e in t[i] ==> Slot(keys, e.item) == i)
  }

  ghost predicate TablePositive<K>(t: Table<K>) {
    forall i :: 0 <= i < |t| ==> AllPositive(t[i])
  }

  /** The keys routed to bucket `i`. */
  function Routed<K, C>(keys: Keys<K, C>, i: nat): K -> bool
    requires keys.buckets > 0
  {
    k => Slot(keys, k) == i
  }

  lemma {:induction false} RoutedRespects<K(!new), C>(keys: Keys<K, C>, i: nat)
    requires Lawful(keys)
    ensures Respects(Routed(keys, i), keys.id)
  {
  }

  lemma {:induction false} TableAddKeeps<K(!new), C>(t: Table<K>, keys: Keys<K, C>, key: K, count: int)
    requires |t| == keys.buckets && Lawful(keys) && TableOk(t, keys)
    ensures var a := TableAdd(t, keys, key, count);
      && |a.table| == |t| && TableOk(a.table, keys)
      && (forall i :: 0 <= i < |t| ==> |t[i]| <= |a.table[i]|)
      && (TablePositive(t) && count > 0 ==> TablePositive(a.table))
  {
    var s := Slot(keys, key);
    var a := TableAdd(t, keys, key, count);
    BucketAddKeeps(t[s], keys.id, key, count);
    forall e | e in a.table[s] ensures Slot(keys, e.item) == s {
      var j :| 0 <= j < |a.table[s]| && a.table[s][j] == e;
      if j < |t[s]| && e.item != key {
        assert t[s][j].item == e.item && t[s][j] in t[s];
      }
    }
  }

  lemma {:induction false} FlattenUpdate<K>(t: Table<K>, i: nat, b: seq<Entry<K>>, p: K -> bool)
    requires i < |t|
    ensures Sum(Flatten(t[i := b]), p) == Sum(Flatten(t), p) - Sum(t[i], p) + Sum(b, p)
  {
    var last := |t| - 1;
    SumConcat(Flatten(t[..last]), t[last], p);
    if i == last {
      assert t[i := b][..last] == t[..last];
      SumConcat(Flatten(t[..last]), b, p);
    } else {
      assert t[i := b][..last] == t[..last][i := b];
      FlattenUpdate(t[..last], i, b, p);
      SumConcat(Flatten(t[..last][i := b]), t[last], p);
    }
  }

  lemma {:induction false} TableAddConserves<K(!new), C>(
    t: Table<K>, keys: Keys<K, C>, key: K, count: int, p: K -> bool)
    requires |t| == keys.buckets && Lawful(keys) && TableOk(t, keys) && Respects(p, keys.id)
    ensures var a := TableAdd(t, keys, key, count);
      Sum(Flatten(a.table), p) + (if a.evicted.Some? then Part(a.evicted.value, p) else 0)
        == Sum(Flatten(t), p) + Part(Entry(key, count), p)
  {
    var s := Slot(keys, key);
    BucketAddConserves(t[s], keys.id, key, count, p);
    FlattenUpdate(t, s, BucketAdd(t[s], keys.id, key, count).bucket, p);
  }

  /** Iteration goes bucket after bucket, and through a bucket in its order. */
  lemma {:induction false} FlattenInOrder<K>(t: Table<K>, i: nat, j: nat)
    requires i < |t| && j < |t[i]|
    ensures |Flatten(t)| == LengthBefore(t, |t|)
    ensures LengthBefore(t, i) + j < |Flatten(t)| && Flatten(t)[LengthBefore(t, i) + j] == t[i][j]
  {
    FlattenAt(t, i, j);
  }

  /** Iteration meets exactly the residents. */
  lemma {:induction false} FlattenMember<K>(t: Table<K>, e: Entry<K>)
    ensures e in Flatten(t) <==> exists i :: 0 <= i < |t| && e in t[i]
  {
    if |t| > 0 {
      var init := t[..|t| - 1];
      FlattenMember(init, e);
      if i :| 0 <= i < |t| && e in t[i] {
        assert i < |init| ==> e in init[i];
      }
    }
  }

  /** Iteration meets no key class twice, in the whole table: this needs equal keys to hash equally. */
  lemma {:induction false} FlattenDistinct<K(!new), C>(t: Table<K>, keys: Keys<K, C>)
    requires Lawful(keys) && TableOk(t, keys)
    ensures Distinct(Flatten(t), keys.id)
  {
    if |t| > 0 {
      var last := |t| - 1;
      var init := t[..last];
      FlattenDistinct(init, keys);
      var es := Flatten(t);
      forall i, j | 0 <= i < j < |es| ensures keys.id(es[i].item) != keys.id(es[j].item) {
        if i < |Flatten(init)| <= j {
          FlattenMember(init, es[i]);
          assert es[j] in t[last];
        }
      }
    }
  }

  /** What bucket `i` holds is what the whole table holds for the keys routed to it. */
  lemma {:induction false} BucketWeight<K, C>(t: Table<K>, keys: Keys<K, C>, i: nat)
    requires TableOk(t, keys)
    ensures Sum(Flatten(t), Routed(keys, i)) == if i < |t| then Sum(t[i], All()) else 0
  {
    if |t| > 0 {
      var last := |t| - 1;
      BucketWeight(t[..last], keys, i);
      SumConcat(Flatten(t[..last]), t[last], Routed(keys, i));
      assert forall j :: 0 <= j < |t[last]| ==> t[last][j] in t[last];
      if i == last {
        SumSame(t[last], Routed(keys, i), All());
      } else {
        SumNone(t[last], Routed(keys, i));
      }
    }
  }

  lemma {:induction false} SumNone<K>(es: seq<Entry<K>>, p: K -> bool)
    requires forall j :: 0 <= j < |es| ==> !p(es[j].item)
    ensures Sum(es, p) == 0
  {
    if |es| > 0 {
      SumNone(es[..|es| - 1], p);
    }
  }

  lemma {:induction false} FlattenPositive<K>(t: Table<K>)
    requires TablePositive(t)
    ensures AllPositive(Flatten(t))
  {
    if |t| > 0 {
      FlattenPositive(t[..|t| - 1]);
    }
  }

  lemma {:induction false} EmptyTable<K>(n: nat)
    ensures Flatten<Entry<K>>(seq(n, _ => [])) == []
  {
    if n > 0 {
      var t: Table<K> := seq(n, _ => []);
      assert t[..n - 1] == seq(n - 1, _ => []);
      EmptyTable<K>(n - 1);
    }
  }

  class HashCounter<K, C(==)> {
    const keys: Keys<K, C>
    const buckets: array<Bucket<K, C>>
    ghost const Repr: set<object>

    ghost predicate Valid()
      reads this, Repr
      ensures Valid() ==> this in Repr
    {
      && this in Repr && buckets in Repr
      && buckets.Length == keys.buckets > 0
      && (forall i :: 0 <= i < buckets.Length ==>
        && buckets[i] in Repr && buckets[i].entries in Repr
        && buckets[i].Valid() && buckets[i].id == keys.id)
      && (forall i, j :: 0 <= i < j < buckets.Length ==>
        buckets[i] != buckets[j] && buckets[i].entries != buckets[j].entries)
    }

    ghost function Contents(): (t: Table<K>)
      requires Valid()
      reads this, Repr
      ensures |t| == keys.buckets
    {
      seq(buckets.Length, i requires 0 <= i < buckets.Length && Valid() reads this, Repr => buckets[i].Contents())
    }

    constructor (keys: Keys<K, C>, default: K)
      requires keys.buckets > 0
      ensures Valid() && fresh(Repr) && this.keys == keys
      ensures Contents() == seq(keys.buckets, _ => [])
    {
      var first := new Bucket(keys.id, default);
      var row := new Bucket<K, C>[keys.buckets](_ => first);
      ghost var repr: set<object> := {row, first, first.entries};
      for n := 1 to keys.buckets
        invariant fresh(row) && fresh(repr) && row in repr
        invariant forall i :: 0 <= i < n ==>
          && row[i] in repr && row[i].entries in repr
          && row[i].Valid() && row[i].id == keys.id && row[i].Contents() == []
        invariant forall i, j :: 0 <= i < j < n ==> row[i] != row[j] && row[i].entries != row[j].entries
      {
        var b := new Bucket(keys.id, default);
        row[n] := b;
        repr := repr + {b, b.entries};
      }
      this.keys := keys;
      buckets := row;
      Repr := repr + {this};
    }

    method Add(key: K, count: int) returns (evicted: Option<Entry<K>>)
      requires Valid()
      modifies Repr
      ensures Valid()
      ensures var a := TableAdd(old(Contents()), keys, key, count);
        Contents() == a.table && evicted == a.evicted
    {
      ghost var before := Contents();
      var slot := keys.hash(key) % keys.buckets;
      assert before[slot] == buckets[slot].Contents();
      evicted := buckets[slot].Add(key, count);
      assert forall i :: 0 <= i < buckets.Length && i != slot ==> buckets[i].Contents() == before[i];
    }

    /** The chain of the buckets' iterators, drained. */
    method Entries() returns (es: seq<Entry<K>>)
      requires Valid()
      ensures es == Flatten(Contents())
    {
      es := [];
      ghost var t := Contents();
      for n := 0 to buckets.Length
        invariant es == Flatten(t[..n])
      {
        var it := buckets[n].Iter();
        var tail := it.Drain();
        es := es + tail;
        assert t[..n + 1][..n] == t[..n];
      }
      assert t[..buckets.Length] == t;
    }
  }
}
