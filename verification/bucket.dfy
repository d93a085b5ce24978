/** `Bucket`: four entries at most; a full bucket gives up its first entry of minimum count. */
module Buckets {
  import opened Entries

  const ASSOCIATIVITY := 4

  /** Adding `count` to every entry whose key equals `c`. */
  function Bumped<K, C(==)>(b: seq<Entry<K>>, id: K -> C, c: C, count: int): seq<Entry<K>> {
    seq(|b|, i requires 0 <= i < |b| =>
      if id(b[i].item) == c then Entry(b[i].item, b[i].count + count) else b[i])
  }

  /** Position `m` holds the minimum count, and no earlier position does. */
  ghost predicate IsFirstMin<K>(b: seq<Entry<K>>, m: int) {
    && 0 <= m < |b|
    && (forall j :: 0 <= j < |b| ==> b[m].count <= b[j].count)
    && (forall j :: 0 <= j < m ==> b[m].count < b[j].count)
  }

  function FirstMin<K>(b: seq<Entry<K>>): (m: nat)
    requires |b| > 0
    ensures IsFirstMin(b, m)
  {
    if |b| == 1 then 0
    else
      var m := FirstMin(b[..|b| - 1]);
      if b[|b| - 1].count < b[m].count then |b| - 1 else m
  }

  datatype Added<K> = Added(bucket: seq<Entry<K>>, evicted: Option<Entry<K>>)

  function BucketAdd<K, C(==)>(b: seq<Entry<K>>, id: K -> C, key: K, count: int): Added<K> {
    if Holds(b, id, id(key)) then Added(Bumped(b, id, id(key), count), None)
    else if |b| < ASSOCIATIVITY then Added(b + [Entry(key, count)], None)
    else Added(b[FirstMin(b) := Entry(key, count)], Some(b[FirstMin(b)]))
  }

  ghost predicate BucketOk<K, C>(b: seq<Entry<K>>, id: K -> C) {
    |b| <= ASSOCIATIVITY && Distinct(b, id)
  }

  /** What leaves the bucket plus what stays is what was there plus what came in, class by class. */
  lemma {:induction false} BucketAddConserves<K(!new), C>(
    b: seq<Entry<K>>, id: K -> C, key: K, count: int, p: K -> bool)
    requires BucketOk(b, id) && Respects(p, id)
    ensures var a := BucketAdd(b, id, key, count);
      Sum(a.bucket, p) + (if a.evicted.Some? then Part(a.evicted.value, p) else 0)
        == Sum(b, p) + Part(Entry(key, count), p)
  {
    var c := id(key);
    if Holds(b, id, c) {
      var i :| 0 <= i < |b| && id(b[i].item) == c;
      var bumped := Entry(b[i].item, b[i].count + count);
      assert Bumped(b, id, c, count) == b[i := bumped];
      SumUpdate(b, i, bumped, p);
      assert p(b[i].item) == p(key);
    } else if |b| < ASSOCIATIVITY {
      SumConcat(b, [Entry(key, count)], p);
      assert Sum([Entry(key, count)], p) == Part(Entry(key, count), p);
    } else {
      SumUpdate(b, FirstMin(b), Entry(key, count), p);
    }
  }

  /** The bucket invariant is kept, no bucket shrinks, and only a full bucket without the key evicts. */
  lemma {:induction false} BucketAddKeeps<K, C>(b: seq<Entry<K>>, id: K -> C, key: K, count: int)
    requires BucketOk(b, id)
    ensures var a := BucketAdd(b, id, key, count);
      && BucketOk(a.bucket, id)
      && |b| <= |a.bucket|
      && (AllPositive(b) && count > 0 ==> AllPositive(a.bucket))
      && (a.evicted.Some? ==> |b| == ASSOCIATIVITY && a.evicted.value in b && !Holds(b, id, id(key)))
  {
    var a := BucketAdd(b, id, key, count);
    if a.evicted.Some? {
      assert b[FirstMin(b)] in b;
    }
  }

  /** `after` is `b` with `e` at position `m`. */
  ghost predicate DiffersAt<K>(b: seq<Entry<K>>, after: seq<Entry<K>>, m: int, e: Entry<K>) {
    && |after| == |b| && 0 <= m < |b| && after[m] == e
    && forall i :: 0 <= i < |b| && i != m ==> after[i] == b[i]
  }

  /** What each position holds afterwards. A resident equal to the key keeps its item, in all its fields, and its
      count is raised; without one the new entry goes to the end or, in a full bucket, to the victim's place;
      and every other position is as it was. */
  lemma {:induction false} BucketAddPlaces<K, C>(b: seq<Entry<K>>, id: K -> C, key: K, count: int)
    ensures var a := BucketAdd(b, id, key, count);
      if exists i :: 0 <= i < |b| && id(b[i].item) == id(key) then
        && |a.bucket| == |b| && a.evicted == None
        && forall i :: 0 <= i < |b| ==>
          && a.bucket[i].item == b[i].item
          && a.bucket[i].count - b[i].count == if id(b[i].item) == id(key) then count else 0
      else if |b| < 4 then
        && |a.bucket| == |b| + 1 && a.evicted == None && a.bucket[|b|] == Entry(key, count)
        && forall i :: 0 <= i < |b| ==> a.bucket[i] == b[i]
      else
        exists m :: IsFirstMin(b, m) && a.evicted == Some(b[m]) && DiffersAt(b, a.bucket, m, Entry(key, count))
  {
    if !Holds(b, id, id(key)) && |b| >= ASSOCIATIVITY {
      assert IsFirstMin(b, FirstMin(b));
      assert DiffersAt(b, BucketAdd(b, id, key, count).bucket, FirstMin(b), Entry(key, count));
    }
  }

  /** Afterwards a key class is resident if it is the added one, or was resident and not evicted. */
  lemma {:induction false} BucketAddHolds<K, C>(b: seq<Entry<K>>, id: K -> C, key: K, count: int, d: C)
    requires BucketOk(b, id)
    ensures var a := BucketAdd(b, id, key, count);
      Holds(a.bucket, id, d) <==>
        d == id(key) || (Holds(b, id, d) && !(a.evicted.Some? && id(a.evicted.value.item) == d))
  {
    var a := BucketAdd(b, id, key, count);
    if d == id(key) {
      HoldsAdded(b, id, key, count);
    } else if Holds(b, id, d) {
      var i :| 0 <= i < |b| && id(b[i].item) == d;
      if !(a.evicted.Some? && i == FirstMin(b)) {
        assert id(a.bucket[i].item) == d;
      }
    }
  }

  lemma {:induction false} HoldsAdded<K, C>(b: seq<Entry<K>>, id: K -> C, key: K, count: int)
    ensures Holds(BucketAdd(b, id, key, count).bucket, id, id(key))
  {
    var bucket := BucketAdd(b, id, key, count).bucket;
    if i :| 0 <= i < |b| && id(b[i].item) == id(key) {
      assert id(bucket[i].item) == id(key);
    } else if |b| < ASSOCIATIVITY {
      assert bucket[|b|] == Entry(key, count);
    } else {
      assert bucket[FirstMin(b)] == Entry(key, count);
    }
  }

  /** The victim holds at most a quarter of the weight that was resident. */
  lemma {:induction false} EvictedIsLight<K, C>(b: seq<Entry<K>>, id: K -> C, key: K, count: int)
    requires BucketAdd(b, id, key, count).evicted.Some? && |b| == ASSOCIATIVITY
    ensures var victim := BucketAdd(b, id, key, count).evicted.value;
      && (exists m :: IsFirstMin(b, m) && b[m] == victim)
      && 4 * victim.count <= Sum(b, All())
  {
    assert Sum(b, All()) == b[0].count + b[1].count + b[2].count + b[3].count by {
      assert b[..3][..2] == b[..2] && b[..2][..1] == b[..1] && b[..1][..0] == [];
      assert Sum(b[..1], All()) == b[0].count;
      assert Sum(b[..2], All()) == b[0].count + b[1].count;
      assert Sum(b[..3], All()) == Sum(b[..2], All()) + b[2].count;
    }
    assert IsFirstMin(b, FirstMin(b));
  }

  class Bucket<K, C(==)> {
    const id: K -> C
    const entries: array<Entry<K>>
    var length: nat

    ghost predicate Valid()
      reads this
    {
      entries.Length == ASSOCIATIVITY && length <= ASSOCIATIVITY
    }

    ghost function Contents(): seq<Entry<K>>
      requires Valid()
      reads this, entries
    {
      entries[..length]
    }

    constructor (id: K -> C, default: K)
      ensures Valid() && Contents() == [] && this.id == id && fresh(entries)
    {
      this.id := id;
      entries := new Entry<K>[ASSOCIATIVITY](_ => Entry(default, 0));
      length := 0;
    }

    method Add(key: K, count: int) returns (evicted: Option<Entry<K>>)
      requires Valid()
      modifies this, entries
      ensures Valid()
      ensures var a := BucketAdd(old(Contents()), id, key, count);
        Contents() == a.bucket && evicted == a.evicted
    {
      ghost var b := Contents();
      var done := false;
      for i := 0 to length
        invariant Valid() && length == old(length)
        invariant done <==> exists j :: 0 <= j < i && id(b[j].item) == id(key)
        invariant forall j :: 0 <= j < length ==>
          entries[j] == if j < i then Bumped(b, id, id(key), count)[j] else b[j]
      {
        if id(entries[i].item) == id(key) {
          entries[i] := Entry(entries[i].item, entries[i].count + count);
          done := true;
        }
      }
      if done {
        evicted := None;
        assert Contents() == Bumped(b, id, id(key), count);
      } else {
        assert Contents() == b;
        if length < ASSOCIATIVITY {
          entries[length] := Entry(key, count);
          length := length + 1;
          evicted := None;
          assert Contents() == b + [Entry(key, count)];
        } else {
          var minIndex := 0;
          var minCount := entries[0].count;
          for index := 0 to length
            invariant 0 <= minIndex < length && minCount == b[minIndex].count
            invariant forall j :: 0 <= j < index ==> minCount <= b[j].count
            invariant forall j :: 0 <= j < minIndex ==> minCount < b[j].count
          {
            if entries[index].count < minCount {
              minIndex := index;
              minCount := entries[index].count;
            }
          }
          assert IsFirstMin(b, minIndex) && IsFirstMin(b, FirstMin(b));
          evicted := Some(entries[minIndex]);
          entries[minIndex] := Entry(key, count);
          assert Contents() == b[minIndex := Entry(key, count)];
        }
      }
    }

    method Iter() returns (it: BucketIterator<K, C>)
      requires Valid()
      ensures fresh(it) && it.bucket == this && it.index == 0
    {
      it := new BucketIterator(this);
    }
  }

  class BucketIterator<K, C(==)> {
    const bucket: Bucket<K, C>
    var index: nat

    constructor (bucket: Bucket<K, C>)
      ensures this.bucket == bucket && index == 0
    {
      this.bucket := bucket;
      index := 0;
    }

    method Next() returns (r: Option<Entry<K>>)
      requires bucket.Valid()
      modifies this
      ensures old(index) < bucket.length ==> r == Some(bucket.Contents()[old(index)]) && index == old(index) + 1
      ensures old(index) >= bucket.length ==> r == None && index == old(index)
    {
      if index < bucket.length {
        index := index + 1;
        r := Some(bucket.entries[index - 1]);
      } else {
        r := None;
      }
    }

    /** Calls `Next` until it answers None. */
    method Drain() returns (es: seq<Entry<K>>)
      requires bucket.Valid() && index == 0
      modifies this
      ensures es == bucket.Contents()
    {
      es := [];
      var next := Next();
      while next.Some?
        invariant index <= bucket.length
        invariant next.Some? ==> 0 < index && next.value == bucket.Contents()[index - 1]
        invariant es == bucket.Contents()[..if next.Some? then index - 1 else index]
        invariant next == None ==> index == bucket.length
        decreases next.Some?, bucket.length - index
      {
        es := es + [next.value];
        next := Next();
      }
    }
  }
}
