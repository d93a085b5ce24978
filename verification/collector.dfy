/** `Collector`: the hash counter in front of the spill log, and what holds over every run of `add`. */
module Collectors {
  import opened Entries
  import opened Buckets
  import opened HashCounters
  import opened SpillLogs

  datatype Config<!K, !C> = Config(keys: Keys<K, C>, lay: Layout, default: K)

  ghost predicate ConfigOk<K(!new), C>(cfg: Config<K, C>) {
    Lawful(cfg.keys) && LayoutOk(cfg.lay)
  }

  datatype State<+K> = State(table: seq<seq<Entry<K>>>, log: Log<K>)

  ghost predicate StateOk<K, C>(s: State<K>, cfg: Config<K, C>) {
    && |s.table| == cfg.keys.buckets && TableOk(s.table, cfg.keys)
    && LogOk(s.log, cfg.lay) && |s.log.file| <= BlocksLength(cfg.lay, s.log.flushes)
  }

  function Fresh<K, C>(cfg: Config<K, C>): State<K> {
    State(seq(cfg.keys.buckets, _ => []), FreshLog(cfg.lay, Entry(cfg.default, 0)))
  }

  datatype Outcome<+K> = Outcome(state: State<K>, evicted: Option<Entry<K>>, ok: bool)

  function CollectorAdd<K, C(==)>(s: State<K>, cfg: Config<K, C>, key: K, count: int, w: Write): Outcome<K>
    requires |s.table| == cfg.keys.buckets > 0 && LayoutOk(cfg.lay) && |s.log.buffer| == cfg.lay.block
  {
    var a := TableAdd(s.table, cfg.keys, key, count);
    if a.evicted.None? then Outcome(State(a.table, s.log), None, true)
    else
      var p := LogPush(s.log, cfg.lay, a.evicted.value, w);
      Outcome(State(a.table, p.log), a.evicted, p.ok)
  }

  /** What `try_iter` yields: the buckets, then the live buffer, then the file. */
  function Stream<K, C>(s: State<K>, cfg: Config<K, C>, reopen: bool): Result<seq<Entry<K>>, ()>
    requires LayoutOk(cfg.lay) && s.log.index <= |s.log.buffer| == cfg.lay.block
  {
    match LogTryIter(s.log, cfg.lay, reopen)
    case Ok(es) => Ok(Flatten(s.table) + es)
    case Err(_) => Err(())
  }

  /** One call of `add`, and the file system's answer should it have to write. */
  datatype Call<+K> = Call(key: K, count: int, write: Write)

  /** Everything a run of calls leaves behind: the state, every entry evicted so far in order,
      and whether some call returned an error. */
  datatype Trace<+K> = Trace(state: State<K>, evicted: seq<Entry<K>>, failed: bool)

  function Run<K, C(==)>(cfg: Config<K, C>, calls: seq<Call<K>>): (t: Trace<K>)
    requires cfg.keys.buckets > 0 && LayoutOk(cfg.lay)
    ensures |t.state.table| == cfg.keys.buckets && |t.state.log.buffer| == cfg.lay.block
  {
    if |calls| == 0 then Trace(Fresh(cfg), [], false)
    else Then(cfg, Run(cfg, calls[..|calls| - 1]), calls[|calls| - 1])
  }

  function Then<K, C(==)>(cfg: Config<K, C>, t: Trace<K>, call: Call<K>): (after: Trace<K>)
    requires |t.state.table| == cfg.keys.buckets > 0
    requires LayoutOk(cfg.lay) && |t.state.log.buffer| == cfg.lay.block
    ensures |after.state.table| == cfg.keys.buckets && |after.state.log.buffer| == cfg.lay.block
  {
    var o := CollectorAdd(t.state, cfg, call.key, call.count, call.write);
    Trace(o.state, t.evicted + (if o.evicted.Some? then [o.evicted.value] else []), t.failed || !o.ok)
  }

  lemma {:induction false} RunThen<K, C>(cfg: Config<K, C>, calls: seq<Call<K>>, call: Call<K>)
    requires cfg.keys.buckets > 0 && LayoutOk(cfg.lay)
    ensures Run(cfg, calls + [call]) == Then(cfg, Run(cfg, calls), call)
  {
    assert (calls + [call])[..|calls|] == calls;
  }

  /** What the callers asked to be counted. */
  function Asked<K>(calls: seq<Call<K>>): seq<Entry<K>> {
    seq(|calls|, i requires 0 <= i < |calls| => Entry(calls[i].key, calls[i].count))
  }

  lemma {:induction false} AskedInit<K>(calls: seq<Call<K>>)
    requires |calls| > 0
    ensures Asked(calls)[..|calls| - 1] == Asked(calls[..|calls| - 1])
  {
  }

  /** The run invariant: the table is well placed and without duplicates; the log stands for exactly the
      evicted entries as long as no call failed, and from the first failure on its file is too short. */
  ghost predicate TraceOk<K, C>(t: Trace<K>, cfg: Config<K, C>) {
    && StateOk(t.state, cfg)
    && (!t.failed ==> Represents(t.state.log, cfg.lay, t.evicted))
    && (t.failed ==> Short(t.state.log, cfg.lay))
  }

  lemma {:induction false} ThenKeeps<K(!new), C>(cfg: Config<K, C>, t: Trace<K>, call: Call<K>)
    requires ConfigOk(cfg) && TraceOk(t, cfg)
    ensures TraceOk(Then(cfg, t, call), cfg)
    ensures forall i :: 0 <= i < |t.state.table| ==> |t.state.table[i]| <= |Then(cfg, t, call).state.table[i]|
  {
    var a := TableAdd(t.state.table, cfg.keys, call.key, call.count);
    TableAddKeeps(t.state.table, cfg.keys, call.key, call.count);
    if a.evicted.Some? {
      var victim := a.evicted.value;
      PushShort(t.state.log, cfg.lay, victim, call.write);
      if !t.failed {
        RepresentsIsFull(t.state.log, cfg.lay, t.evicted);
        if LogPush(t.state.log, cfg.lay, victim, call.write).ok {
          PushAppends(t.state.log, cfg.lay, victim, call.write, t.evicted);
        }
      }
    } else {
      assert Then(cfg, t, call).evicted == t.evicted;
    }
  }

  lemma {:induction false} RunKeeps<K(!new), C>(cfg: Config<K, C>, calls: seq<Call<K>>)
    requires ConfigOk(cfg)
    ensures TraceOk(Run(cfg, calls), cfg)
  {
    if |calls| == 0 {
      FreshRepresents(cfg.lay, Entry(cfg.default, 0));
    } else {
      RunKeeps(cfg, calls[..|calls| - 1]);
      ThenKeeps(cfg, Run(cfg, calls[..|calls| - 1]), calls[|calls| - 1]);
    }
  }

  /** Residents and evicted entries together hold, class by class, what was asked for. */
  lemma {:induction false} RunConserves<K(!new), C>(cfg: Config<K, C>, calls: seq<Call<K>>, p: K -> bool)
    requires ConfigOk(cfg) && Respects(p, cfg.keys.id)
    ensures var t := Run(cfg, calls);
      Sum(Flatten(t.state.table), p) + Sum(t.evicted, p) == Sum(Asked(calls), p)
  {
    if |calls| == 0 {
      EmptyTable<K>(cfg.keys.buckets);
    } else {
      var init, call := calls[..|calls| - 1], calls[|calls| - 1];
      var t := Run(cfg, init);
      RunConserves(cfg, init, p);
      RunKeeps(cfg, init);
      AskedInit(calls);
      TableAddConserves(t.state.table, cfg.keys, call.key, call.count, p);
      var o := CollectorAdd(t.state, cfg, call.key, call.count, call.write);
      if o.evicted.Some? {
        assert (t.evicted + [o.evicted.value])[..|t.evicted|] == t.evicted;
      } else {
        assert t.evicted + [] == t.evicted;
      }
    }
  }

  lemma {:induction false} RunPositive<K(!new), C>(cfg: Config<K, C>, calls: seq<Call<K>>)
    requires ConfigOk(cfg) && AllPositive(Asked(calls))
    ensures var t := Run(cfg, calls);
      TablePositive(t.state.table) && AllPositive(t.evicted)
  {
    if |calls| > 0 {
      var init, call := calls[..|calls| - 1], calls[|calls| - 1];
      var t := Run(cfg, init);
      AskedInit(calls);
      RunPositive(cfg, init);
      RunKeeps(cfg, init);
      assert Asked(calls)[|calls| - 1].count > 0;
      TableAddKeeps(t.state.table, cfg.keys, call.key, call.count);
      var s := Slot(cfg.keys, call.key);
      BucketAddKeeps(t.state.table[s], cfg.keys.id, call.key, call.count);
    }
  }

  /** Reading when no call has failed: the residents, then the evicted entries, the buffer's first. */
  lemma {:induction false} StreamOfTrace<K, C>(cfg: Config<K, C>, t: Trace<K>)
    requires TraceOk(t, cfg) && !t.failed
    ensures t.state.log.index <= |t.evicted|
    ensures var n := |t.evicted| - t.state.log.index;
      Stream(t.state, cfg, true) == Ok(Flatten(t.state.table) + (t.evicted[n..] + t.evicted[..n]))
  {
    TryIterYieldsPushes(t.state.log, cfg.lay, t.evicted);
  }

  lemma {:induction false} StreamSum<K, C>(cfg: Config<K, C>, t: Trace<K>, p: K -> bool)
    requires TraceOk(t, cfg) && !t.failed
    ensures Stream(t.state, cfg, true).Ok?
    ensures Sum(Stream(t.state, cfg, true).value, p) == Sum(Flatten(t.state.table), p) + Sum(t.evicted, p)
  {
    StreamOfTrace(cfg, t);
    SumRotated(Flatten(t.state.table), t.evicted, |t.evicted| - t.state.log.index, p);
  }

  lemma {:induction false} SumRotated<K>(head: seq<Entry<K>>, es: seq<Entry<K>>, n: nat, p: K -> bool)
    requires n <= |es|
    ensures Sum(head + (es[n..] + es[..n]), p) == Sum(head, p) + Sum(es, p)
  {
    var a, b := es[..n], es[n..];
    assert a + b == es;
    SumConcat(a, b, p);
    SumConcat(b, a, p);
    SumConcat(head, b + a, p);
  }

  /** With positive counts every entry read is positive; and there are no more of them than calls. */
  lemma {:induction false} StreamPositive<K(!new), C>(cfg: Config<K, C>, calls: seq<Call<K>>)
    requires ConfigOk(cfg) && !Run(cfg, calls).failed
    ensures StateOk(Run(cfg, calls).state, cfg) && Stream(Run(cfg, calls).state, cfg, true).Ok?
    ensures AllPositive(Asked(calls)) ==> AllPositive(Stream(Run(cfg, calls).state, cfg, true).value)
    ensures |Stream(Run(cfg, calls).state, cfg, true).value| <= |calls|
  {
    RunKeeps(cfg, calls);
    StreamOfTrace(cfg, Run(cfg, calls));
    EntriesBounded(cfg, calls);
    if AllPositive(Asked(calls)) {
      RunPositive(cfg, calls);
      FlattenPositive(Run(cfg, calls).state.table);
    }
  }

  /** The collector is exact: over every run, with any evictions, re-insertions and flushes, reading
      succeeds exactly when no call failed, and what is read sums, for every selection of key classes,
      to what was asked for. */
  lemma {:induction false} StreamIsExact<K(!new), C>(cfg: Config<K, C>, calls: seq<Call<K>>, reopen: bool, p: K -> bool)
    requires ConfigOk(cfg) && Respects(p, cfg.keys.id)
    ensures StateOk(Run(cfg, calls).state, cfg)
    ensures Stream(Run(cfg, calls).state, cfg, reopen).Ok? <==> reopen && !Run(cfg, calls).failed
    ensures Stream(Run(cfg, calls).state, cfg, reopen).Ok? ==>
      Sum(Stream(Run(cfg, calls).state, cfg, reopen).value, p) == Sum(Asked(calls), p)
  {
    RunKeeps(cfg, calls);
    if reopen && !Run(cfg, calls).failed {
      StreamSum(cfg, Run(cfg, calls), p);
      RunConserves(cfg, calls, p);
    }
  }

  lemma {:induction false} RunSplits<K, C>(cfg: Config<K, C>, calls: seq<Call<K>>, more: seq<Call<K>>)
    requires cfg.keys.buckets > 0 && LayoutOk(cfg.lay)
    ensures Run(cfg, calls).failed ==> Run(cfg, calls + more).failed
  {
    if |more| == 0 {
      assert calls + more == calls;
    } else {
      RunSplits(cfg, calls, more[..|more| - 1]);
      assert (calls + more)[..|calls + more| - 1] == calls + more[..|more| - 1];
    }
  }

  /** Once a call has failed, the file stays too short through every later call, and reading fails. */
  lemma {:induction false} FailureIsContained<K(!new), C>(
    cfg: Config<K, C>, calls: seq<Call<K>>, more: seq<Call<K>>, reopen: bool)
    requires ConfigOk(cfg) && Run(cfg, calls).failed
    ensures var s := Run(cfg, calls + more).state;
      StateOk(s, cfg) && Short(s.log, cfg.lay) && Stream(s, cfg, reopen) == Err(())
  {
    RunSplits(cfg, calls, more);
    RunKeeps(cfg, calls + more);
  }

  /** Table invariant over every run: placement, one entry per key class in the whole table, four at most. */
  lemma {:induction false} ResidentsAreUnique<K(!new), C>(cfg: Config<K, C>, calls: seq<Call<K>>)
    requires ConfigOk(cfg)
    ensures var table := Run(cfg, calls).state.table;
      && |table| == cfg.keys.buckets
      && Distinct(Flatten(table), cfg.keys.id)
      && (forall i :: 0 <= i < |table| ==> |table[i]| <= 4)
      && (forall e :: e in Flatten(table) <==> e in table[Slot(cfg.keys, e.item)])
  {
    var table := Run(cfg, calls).state.table;
    RunKeeps(cfg, calls);
    FlattenDistinct(table, cfg.keys);
    forall e ensures e in Flatten(table) <==> e in table[Slot(cfg.keys, e.item)] {
      FlattenMember(table, e);
    }
  }

  /** Reading never yields more entries than there were calls. */
  lemma {:induction false} EntriesBounded<K(!new), C>(cfg: Config<K, C>, calls: seq<Call<K>>)
    requires ConfigOk(cfg)
    ensures var t := Run(cfg, calls);
      |Flatten(t.state.table)| + |t.evicted| <= |calls|
  {
    if |calls| == 0 {
      EmptyTable<K>(cfg.keys.buckets);
    } else {
      var init, call := calls[..|calls| - 1], calls[|calls| - 1];
      EntriesBounded(cfg, init);
      var t := Run(cfg, init).state.table;
      var s := Slot(cfg.keys, call.key);
      FlattenGrows(t, s, BucketAdd(t[s], cfg.keys.id, call.key, call.count).bucket);
    }
  }

  lemma {:induction false} FlattenGrows<K>(t: Table<K>, i: nat, b: seq<Entry<K>>)
    requires i < |t|
    ensures |Flatten(t[i := b])| == |Flatten(t)| - |t[i]| + |b|
  {
    var last := |t| - 1;
    if i == last {
      assert t[i := b][..last] == t[..last];
    } else {
      assert t[i := b][..last] == t[..last][i := b];
      FlattenGrows(t[..last], i, b);
    }
  }

  /** No spilled entry holds more than a quarter of the weight ever routed to its bucket. */
  lemma {:induction false} SpilledIsLight<K(!new), C>(cfg: Config<K, C>, calls: seq<Call<K>>, k: nat)
    requires ConfigOk(cfg) && AllPositive(Asked(calls)) && k < |Run(cfg, calls).evicted|
    ensures var e := Run(cfg, calls).evicted[k];
      4 * e.count <= Sum(Asked(calls), Routed(cfg.keys, Slot(cfg.keys, e.item)))
  {
    var init, call := calls[..|calls| - 1], calls[|calls| - 1];
    var t := Run(cfg, init);
    AskedInit(calls);
    assert Asked(calls)[|calls| - 1].count > 0;
    RunKeeps(cfg, init);
    if k < |t.evicted| {
      SpilledIsLight(cfg, init, k);
    } else {
      var s := Slot(cfg.keys, call.key);
      var bucket := t.state.table[s];
      BucketAddKeeps(bucket, cfg.keys.id, call.key, call.count);
      EvictedIsLight(bucket, cfg.keys.id, call.key, call.count);
      BucketWeight(t.state.table, cfg.keys, s);
      RoutedRespects(cfg.keys, s);
      RunConserves(cfg, init, Routed(cfg.keys, s));
      RunPositive(cfg, init);
      SumPositive(t.evicted, Routed(cfg.keys, s));
    }
  }

  /** `item` is a key some call brought: equal in every field, not only in those its equality looks at. */
  ghost predicate Brought<K>(calls: seq<Call<K>>, item: K) {
    exists i :: 0 <= i < |calls| && calls[i].key == item
  }

  lemma {:induction false} BroughtBefore<K>(calls: seq<Call<K>>, item: K)
    requires |calls| > 0 && (Brought(calls[..|calls| - 1], item) || item == calls[|calls| - 1].key)
    ensures Brought(calls, item)
  {
    if item == calls[|calls| - 1].key {
      assert calls[|calls| - 1].key == item;
    } else {
      var i :| 0 <= i < |calls| - 1 && calls[..|calls| - 1][i].key == item;
      assert calls[i].key == item;
    }
  }

  /** A bucket's items are those it had, or the added key. */
  lemma {:induction false} BucketAddItems<K, C>(
    b: seq<Entry<K>>, id: K -> C, key: K, count: int, e: Entry<K>)
    requires e in BucketAdd(b, id, key, count).bucket || BucketAdd(b, id, key, count).evicted == Some(e)
    ensures e.item == key || exists f :: f in b && f.item == e.item
  {
    var a := BucketAdd(b, id, key, count);
    if e in a.bucket {
      var j :| 0 <= j < |a.bucket| && a.bucket[j] == e;
      if e.item != key {
        assert b[j] in b && b[j].item == e.item;
      }
    } else {
      assert e in b;
    }
  }

  /** Whatever is resident or was evicted is a key some call brought: nothing stale, nothing made up. */
  lemma {:induction false} ItemsAreBrought<K(!new), C>(cfg: Config<K, C>, calls: seq<Call<K>>, e: Entry<K>)
    requires ConfigOk(cfg)
    requires e in Flatten(Run(cfg, calls).state.table) || e in Run(cfg, calls).evicted
    ensures Brought(calls, e.item)
  {
    if |calls| == 0 {
      EmptyTable<K>(cfg.keys.buckets);
      assert false;
    }
    var init, call := calls[..|calls| - 1], calls[|calls| - 1];
    var t := Run(cfg, init);
    var s := Slot(cfg.keys, call.key);
    var a := BucketAdd(t.state.table[s], cfg.keys.id, call.key, call.count);
    if e in t.evicted {
      ItemsAreBrought(cfg, init, e);
    } else if e in a.bucket || a.evicted == Some(e) {
      BucketAddItems(t.state.table[s], cfg.keys.id, call.key, call.count, e);
      if e.item != call.key {
        var f :| f in t.state.table[s] && f.item == e.item;
        FlattenMember(t.state.table, f);
        ItemsAreBrought(cfg, init, f);
      }
    } else {
      FlattenMember(Run(cfg, calls).state.table, e);
      FlattenMember(t.state.table, e);
      ItemsAreBrought(cfg, init, e);
    }
    BroughtBefore(calls, e.item);
  }

  /** Every entry read is of a key some call brought. */
  lemma {:induction false} StreamItemsAreBrought<K(!new), C>(cfg: Config<K, C>, calls: seq<Call<K>>, e: Entry<K>)
    requires ConfigOk(cfg) && !Run(cfg, calls).failed && StateOk(Run(cfg, calls).state, cfg)
    requires Stream(Run(cfg, calls).state, cfg, true).Ok? && e in Stream(Run(cfg, calls).state, cfg, true).value
    ensures Brought(calls, e.item)
  {
    RunKeeps(cfg, calls);
    StreamOfTrace(cfg, Run(cfg, calls));
    ItemsAreBrought(cfg, calls, e);
  }

  /** Number of entries whose key `p` selects. */
  function Count<K>(es: seq<Entry<K>>, p: K -> bool): nat {
    if |es| == 0 then 0 else Count(es[..|es| - 1], p) + (if p(es[|es| - 1].item) then 1 else 0)
  }

  /** Number of calls that put a new entry into bucket `i`, rather than raising a resident's count. */
  function Installs<K, C(==)>(cfg: Config<K, C>, calls: seq<Call<K>>, i: nat): nat
    requires cfg.keys.buckets > 0 && LayoutOk(cfg.lay)
  {
    if |calls| == 0 then 0
    else
      var init, key := calls[..|calls| - 1], calls[|calls| - 1].key;
      var here := Slot(cfg.keys, key) == i
        && !Holds(Run(cfg, init).state.table[Slot(cfg.keys, key)], cfg.keys.id, cfg.keys.id(key));
      Installs(cfg, init, i) + (if here then 1 else 0)
  }

  /** One call: bucket `i` grows, or evicts, exactly when the call installs an entry in it. */
  lemma {:induction false} ThenInstalls<K(!new), C>(cfg: Config<K, C>, t: Trace<K>, call: Call<K>, i: nat)
    requires ConfigOk(cfg) && StateOk(t.state, cfg) && i < cfg.keys.buckets
    ensures var after := Then(cfg, t, call);
      var s := Slot(cfg.keys, call.key);
      var installs := s == i && !Holds(t.state.table[s], cfg.keys.id, cfg.keys.id(call.key));
      |after.state.table[i]| + Count(after.evicted, Routed(cfg.keys, i))
        == |t.state.table[i]| + Count(t.evicted, Routed(cfg.keys, i)) + (if installs then 1 else 0)
  {
    var s := Slot(cfg.keys, call.key);
    BucketAddKeeps(t.state.table[s], cfg.keys.id, call.key, call.count);
    var evicted := BucketAdd(t.state.table[s], cfg.keys.id, call.key, call.count).evicted;
    if evicted.Some? {
      assert Slot(cfg.keys, evicted.value.item) == s;
      assert (t.evicted + [evicted.value])[..|t.evicted|] == t.evicted;
    } else {
      assert t.evicted + [] == t.evicted;
    }
  }

  /** Per bucket, what was installed is still resident or was evicted from that bucket. */
  lemma {:induction false} InstallsAccounted<K(!new), C>(cfg: Config<K, C>, calls: seq<Call<K>>, i: nat)
    requires ConfigOk(cfg) && i < cfg.keys.buckets
    ensures var t := Run(cfg, calls);
      Installs(cfg, calls, i) == |t.state.table[i]| + Count(t.evicted, Routed(cfg.keys, i))
  {
    if |calls| > 0 {
      var init := calls[..|calls| - 1];
      InstallsAccounted(cfg, init, i);
      RunKeeps(cfg, init);
      ThenInstalls(cfg, Run(cfg, init), calls[|calls| - 1], i);
    }
  }

  /** The key classes ever routed to bucket `i`. */
  function RoutedClasses<K, C(==)>(keys: Keys<K, C>, calls: seq<Call<K>>, i: nat): set<C>
    requires keys.buckets > 0
  {
    if |calls| == 0 then {}
    else
      var key := calls[|calls| - 1].key;
      RoutedClasses(keys, calls[..|calls| - 1], i) + (if Slot(keys, key) == i then {keys.id(key)} else {})
  }

  /** While nothing was evicted, a bucket holds an entry for each class ever routed to it, and no other. */
  lemma {:induction false} UnspilledHolds<K(!new), C>(cfg: Config<K, C>, calls: seq<Call<K>>, i: nat, d: C)
    requires ConfigOk(cfg) && i < cfg.keys.buckets && Run(cfg, calls).evicted == []
    ensures Holds(Run(cfg, calls).state.table[i], cfg.keys.id, d) <==> d in RoutedClasses(cfg.keys, calls, i)
  {
    if |calls| > 0 {
      var init, call := calls[..|calls| - 1], calls[|calls| - 1];
      RunKeeps(cfg, init);
      UnspilledHolds(cfg, init, i, d);
      if Slot(cfg.keys, call.key) == i {
        BucketAddHolds(Run(cfg, init).state.table[i], cfg.keys.id, call.key, call.count, d);
      }
    }
  }

  lemma {:induction false} UnspilledBucket<K(!new), C(!new)>(cfg: Config<K, C>, calls: seq<Call<K>>, i: nat)
    requires ConfigOk(cfg) && i < cfg.keys.buckets && Run(cfg, calls).evicted == []
    ensures |Run(cfg, calls).state.table[i]| == |RoutedClasses(cfg.keys, calls, i)|
    ensures Classes(Run(cfg, calls).state.table[i], cfg.keys.id) == RoutedClasses(cfg.keys, calls, i)
  {
    var b := Run(cfg, calls).state.table[i];
    RunKeeps(cfg, calls);
    forall d ensures d in Classes(b, cfg.keys.id) <==> d in RoutedClasses(cfg.keys, calls, i) {
      UnspilledHolds(cfg, calls, i, d);
    }
    assert Classes(b, cfg.keys.id) == RoutedClasses(cfg.keys, calls, i);
    DistinctCount(b, cfg.keys.id);
  }

  lemma {:induction false} ManyClassesSpill<K(!new), C(!new)>(cfg: Config<K, C>, calls: seq<Call<K>>) returns (i: nat)
    requires ConfigOk(cfg) && Run(cfg, calls).evicted != []
    ensures i < cfg.keys.buckets && |RoutedClasses(cfg.keys, calls, i)| > 4
  {
    var init, key := calls[..|calls| - 1], calls[|calls| - 1].key;
    var t := Run(cfg, init);
    if t.evicted != [] {
      i := ManyClassesSpill(cfg, init);
      var before, c := RoutedClasses(cfg.keys, init, i), cfg.keys.id(key);
      assert before + {c} == if c in before then before else before + {c};
    } else {
      i := Slot(cfg.keys, key);
      FirstSpill(cfg, init, calls[|calls| - 1]);
    }
  }

  /** The first call that evicts finds its bucket full of four other classes. */
  lemma {:induction false} FirstSpill<K(!new), C(!new)>(cfg: Config<K, C>, calls: seq<Call<K>>, call: Call<K>)
    requires ConfigOk(cfg) && Run(cfg, calls).evicted == [] && Then(cfg, Run(cfg, calls), call).evicted != []
    ensures var i := Slot(cfg.keys, call.key);
      |RoutedClasses(cfg.keys, calls, i) + {cfg.keys.id(call.key)}| > 4
  {
    var i := Slot(cfg.keys, call.key);
    RunKeeps(cfg, calls);
    BucketAddKeeps(Run(cfg, calls).state.table[i], cfg.keys.id, call.key, call.count);
    UnspilledBucket(cfg, calls, i);
    UnspilledHolds(cfg, calls, i, cfg.keys.id(call.key));
  }

  /** A run spills exactly when some bucket had more than four key classes routed to it. */
  lemma {:induction false} NeverSpillsIff<K(!new), C(!new)>(cfg: Config<K, C>, calls: seq<Call<K>>)
    requires ConfigOk(cfg)
    ensures Run(cfg, calls).evicted == []
      <==> forall i :: 0 <= i < cfg.keys.buckets ==> |RoutedClasses(cfg.keys, calls, i)| <= 4
  {
    if Run(cfg, calls).evicted != [] {
      var i := ManyClassesSpill(cfg, calls);
    } else {
      RunKeeps(cfg, calls);
      forall i | 0 <= i < cfg.keys.buckets ensures |RoutedClasses(cfg.keys, calls, i)| <= 4 {
        UnspilledBucket(cfg, calls, i);
      }
    }
  }

  lemma {:induction false} DistinctSum<K, C>(es: seq<Entry<K>>, id: K -> C, i: nat)
    requires Distinct(es, id) && i < |es|
    ensures Sum(es, OfClass(id, id(es[i].item))) == es[i].count
  {
    var last := |es| - 1;
    if i < last {
      DistinctSum(es[..last], id, i);
    } else {
      SumNone(es[..last], OfClass(id, id(es[i].item)));
    }
  }

  /** A run that never spilled is an exact map: one resident per key class, holding the class's whole count. */
  lemma {:induction false} UnspilledIsExactMap<K(!new), C>(cfg: Config<K, C>, calls: seq<Call<K>>, i: nat)
    requires ConfigOk(cfg) && Run(cfg, calls).evicted == []
    requires i < |Flatten(Run(cfg, calls).state.table)|
    ensures var es := Flatten(Run(cfg, calls).state.table);
      && Distinct(es, cfg.keys.id)
      && es[i].count == Sum(Asked(calls), OfClass(cfg.keys.id, cfg.keys.id(es[i].item)))
  {
    var es := Flatten(Run(cfg, calls).state.table);
    ResidentsAreUnique(cfg, calls);
    DistinctSum(es, cfg.keys.id, i);
    RunConserves(cfg, calls, OfClass(cfg.keys.id, cfg.keys.id(es[i].item)));
  }

  // ---- What is read more than once ----

  /** Number of calls that brought a key of class `c` when none was resident. */
  function Admissions<K, C(==)>(cfg: Config<K, C>, calls: seq<Call<K>>, c: C): nat
    requires cfg.keys.buckets > 0 && LayoutOk(cfg.lay)
  {
    if |calls| == 0 then 0
    else
      var init, key := calls[..|calls| - 1], calls[|calls| - 1].key;
      var admitted := cfg.keys.id(key) == c
        && !Holds(Run(cfg, init).state.table[Slot(cfg.keys, key)], cfg.keys.id, c);
      Admissions(cfg, init, c) + (if admitted then 1 else 0)
  }

  /** One call, seen by the class of `key`: it becomes resident or is evicted as often as it is admitted. */
  lemma {:induction false} ThenAdmits<K(!new), C>(cfg: Config<K, C>, t: Trace<K>, call: Call<K>, key: K)
    requires ConfigOk(cfg) && StateOk(t.state, cfg)
    ensures var after := Then(cfg, t, call);
      var c := cfg.keys.id(key);
      var before := Holds(t.state.table[Slot(cfg.keys, key)], cfg.keys.id, c);
      var admitted := cfg.keys.id(call.key) == c && !before;
      (if Holds(after.state.table[Slot(cfg.keys, key)], cfg.keys.id, c) then 1 else 0)
          + Count(after.evicted, OfClass(cfg.keys.id, c))
        == (if before then 1 else 0) + Count(t.evicted, OfClass(cfg.keys.id, c)) + (if admitted then 1 else 0)
  {
    var s, c := Slot(cfg.keys, call.key), cfg.keys.id(key);
    var bucket := t.state.table[s];
    BucketAddKeeps(bucket, cfg.keys.id, call.key, call.count);
    BucketAddHolds(bucket, cfg.keys.id, call.key, call.count, c);
    var evicted := BucketAdd(bucket, cfg.keys.id, call.key, call.count).evicted;
    if evicted.Some? {
      assert (t.evicted + [evicted.value])[..|t.evicted|] == t.evicted;
      VictimIsGone(bucket, cfg.keys.id, call.key, call.count);
      if cfg.keys.id(evicted.value.item) == c {
        assert Slot(cfg.keys, evicted.value.item) == s == Slot(cfg.keys, key);
      }
    } else {
      assert t.evicted + [] == t.evicted;
    }
  }

  /** A victim's class was resident, and the added key is of another. */
  lemma {:induction false} VictimIsGone<K, C>(b: seq<Entry<K>>, id: K -> C, key: K, count: int)
    requires BucketAdd(b, id, key, count).evicted.Some?
    ensures var victim := BucketAdd(b, id, key, count).evicted.value;
      Holds(b, id, id(victim.item)) && id(victim.item) != id(key)
  {
    assert id(b[FirstMin(b)].item) == id(BucketAdd(b, id, key, count).evicted.value.item);
  }

  /** Over every run: a class is resident or was evicted once for every time it was admitted. */
  lemma {:induction false} AdmissionsAccounted<K(!new), C>(cfg: Config<K, C>, calls: seq<Call<K>>, key: K)
    requires ConfigOk(cfg)
    ensures var t, c := Run(cfg, calls), cfg.keys.id(key);
      Admissions(cfg, calls, c)
        == (if Holds(t.state.table[Slot(cfg.keys, key)], cfg.keys.id, c) then 1 else 0)
          + Count(t.evicted, OfClass(cfg.keys.id, c))
  {
    if |calls| > 0 {
      var init := calls[..|calls| - 1];
      AdmissionsAccounted(cfg, init, key);
      RunKeeps(cfg, init);
      ThenAdmits(cfg, Run(cfg, init), calls[|calls| - 1], key);
    }
  }

  lemma {:induction false} CountConcat<K>(a: seq<Entry<K>>, b: seq<Entry<K>>, p: K -> bool)
    ensures Count(a + b, p) == Count(a, p) + Count(b, p)
  {
    if |b| == 0 {
      assert a + b == a;
    } else {
      assert (a + b)[..|a + b| - 1] == a + b[..|b| - 1];
      CountConcat(a, b[..|b| - 1], p);
    }
  }

  /** Entries with pairwise unequal keys have at most one of a class. */
  lemma {:induction false} DistinctMeansOne<K, C>(es: seq<Entry<K>>, id: K -> C, c: C)
    requires Distinct(es, id)
    ensures Count(es, OfClass(id, c)) == if Holds(es, id, c) then 1 else 0
  {
    if |es| > 0 {
      var init := es[..|es| - 1];
      DistinctMeansOne(init, id, c);
      if i :| 0 <= i < |es| && id(es[i].item) == c {
        assert i < |init| ==> id(init[i].item) == c;
      }
      if i :| 0 <= i < |init| && id(init[i].item) == c {
        assert id(es[i].item) == c;
      }
    }
  }

  lemma {:induction false} CountHolds<K, C>(es: seq<Entry<K>>, id: K -> C, i: nat)
    requires i < |es|
    ensures Count(es, OfClass(id, id(es[i].item))) > 0
  {
    if i < |es| - 1 {
      CountHolds(es[..|es| - 1], id, i);
    }
  }

  lemma {:induction false} OnceMeansDistinct<K, C>(es: seq<Entry<K>>, id: K -> C)
    requires forall i :: 0 <= i < |es| ==> Count(es, OfClass(id, id(es[i].item))) <= 1
    ensures Distinct(es, id)
  {
    forall i, j | 0 <= i < j < |es| ensures id(es[i].item) != id(es[j].item) {
      CountHolds(es[..j], id, i);
      CountHolds(es[j..], id, 0);
      CountConcat(es[..j], es[j..], OfClass(id, id(es[i].item)));
      assert es[..j] + es[j..] == es;
    }
  }

  /** A class is resident if and only if the bucket its keys are routed to holds it. */
  lemma {:induction false} ResidentInSlot<K(!new), C>(cfg: Config<K, C>, s: State<K>, key: K)
    requires ConfigOk(cfg) && StateOk(s, cfg)
    ensures Holds(Flatten(s.table), cfg.keys.id, cfg.keys.id(key))
      <==> Holds(s.table[Slot(cfg.keys, key)], cfg.keys.id, cfg.keys.id(key))
  {
    var es, bucket, c := Flatten(s.table), s.table[Slot(cfg.keys, key)], cfg.keys.id(key);
    if i :| 0 <= i < |es| && cfg.keys.id(es[i].item) == c {
      FlattenMember(s.table, es[i]);
      var j :| 0 <= j < |bucket| && bucket[j] == es[i];
      assert cfg.keys.id(bucket[j].item) == c;
    }
    if j :| 0 <= j < |bucket| && cfg.keys.id(bucket[j].item) == c {
      FlattenMember(s.table, bucket[j]);
      var i :| 0 <= i < |es| && es[i] == bucket[j];
      assert cfg.keys.id(es[i].item) == c;
    }
  }

  lemma {:induction false} CountRotated<K>(head: seq<Entry<K>>, es: seq<Entry<K>>, n: nat, p: K -> bool)
    requires n <= |es|
    ensures Count(head + (es[n..] + es[..n]), p) == Count(head, p) + Count(es, p)
  {
    var a, b := es[..n], es[n..];
    assert a + b == es;
    CountConcat(a, b, p);
    CountConcat(b, a, p);
    CountConcat(head, b + a, p);
  }

  lemma {:induction false} StreamCount<K, C>(cfg: Config<K, C>, t: Trace<K>, p: K -> bool)
    requires TraceOk(t, cfg) && !t.failed
    ensures Stream(t.state, cfg, true).Ok?
    ensures Count(Stream(t.state, cfg, true).value, p) == Count(Flatten(t.state.table), p) + Count(t.evicted, p)
  {
    StreamOfTrace(cfg, t);
    CountRotated(Flatten(t.state.table), t.evicted, |t.evicted| - t.state.log.index, p);
  }

  /** Reading meets a class where it is resident, and each time it was evicted. */
  lemma {:induction false} CountOfTrace<K(!new), C>(cfg: Config<K, C>, t: Trace<K>, key: K)
    requires ConfigOk(cfg) && TraceOk(t, cfg) && !t.failed
    ensures Stream(t.state, cfg, true).Ok?
    ensures var c := cfg.keys.id(key);
      Count(Stream(t.state, cfg, true).value, OfClass(cfg.keys.id, c))
        == (if Holds(t.state.table[Slot(cfg.keys, key)], cfg.keys.id, c) then 1 else 0)
          + Count(t.evicted, OfClass(cfg.keys.id, c))
  {
    var c := cfg.keys.id(key);
    StreamCount(cfg, t, OfClass(cfg.keys.id, c));
    FlattenDistinct(t.state.table, cfg.keys);
    DistinctMeansOne(Flatten(t.state.table), cfg.keys.id, c);
    ResidentInSlot(cfg, t.state, key);
  }

  /** A stack is read once for every time it was let into the table: more than once only if it was evicted
      and came back. */
  lemma {:induction false} ReadAsOftenAsAdmitted<K(!new), C>(cfg: Config<K, C>, calls: seq<Call<K>>, key: K)
    requires ConfigOk(cfg) && !Run(cfg, calls).failed
    ensures StateOk(Run(cfg, calls).state, cfg) && Stream(Run(cfg, calls).state, cfg, true).Ok?
    ensures Count(Stream(Run(cfg, calls).state, cfg, true).value, OfClass(cfg.keys.id, cfg.keys.id(key)))
      == Admissions(cfg, calls, cfg.keys.id(key))
  {
    RunKeeps(cfg, calls);
    CountOfTrace(cfg, Run(cfg, calls), key);
    AdmissionsAccounted(cfg, calls, key);
  }

  /** No key of the run was let in twice. */
  ghost predicate NoneReturns<K, C>(cfg: Config<K, C>, calls: seq<Call<K>>)
    requires cfg.keys.buckets > 0 && LayoutOk(cfg.lay)
  {
    forall i :: 0 <= i < |calls| ==> Admissions(cfg, calls, cfg.keys.id(calls[i].key)) <= 1
  }

  /** Reading meets no key class twice if and only if none was evicted and came back. */
  lemma {:induction false} ReadOnceIff<K(!new), C>(cfg: Config<K, C>, calls: seq<Call<K>>)
    requires ConfigOk(cfg) && !Run(cfg, calls).failed
    ensures StateOk(Run(cfg, calls).state, cfg) && Stream(Run(cfg, calls).state, cfg, true).Ok?
    ensures Distinct(Stream(Run(cfg, calls).state, cfg, true).value, cfg.keys.id) <==> NoneReturns(cfg, calls)
  {
    RunKeeps(cfg, calls);
    StreamOfTrace(cfg, Run(cfg, calls));
    var es := Stream(Run(cfg, calls).state, cfg, true).value;
    if NoneReturns(cfg, calls) {
      forall i | 0 <= i < |es| ensures Count(es, OfClass(cfg.keys.id, cfg.keys.id(es[i].item))) <= 1 {
        ReadAsOftenAsAdmitted(cfg, calls, es[i].item);
        StreamItemsAreBrought(cfg, calls, es[i]);
        var k :| 0 <= k < |calls| && calls[k].key == es[i].item;
      }
      OnceMeansDistinct(es, cfg.keys.id);
    }
    if Distinct(es, cfg.keys.id) {
      forall i | 0 <= i < |calls| ensures Admissions(cfg, calls, cfg.keys.id(calls[i].key)) <= 1 {
        ReadAsOftenAsAdmitted(cfg, calls, calls[i].key);
        DistinctMeansOne(es, cfg.keys.id, cfg.keys.id(calls[i].key));
      }
    }
  }

  /** A run that never spills reads no class twice, whether or not its writes would have failed. */
  lemma {:induction false} UnspilledReadsOnce<K(!new), C>(cfg: Config<K, C>, calls: seq<Call<K>>)
    requires ConfigOk(cfg) && Run(cfg, calls).evicted == []
    ensures !Run(cfg, calls).failed && NoneReturns(cfg, calls)
  {
    UnspilledNeverFails(cfg, calls);
    RunKeeps(cfg, calls);
    StreamOfTrace(cfg, Run(cfg, calls));
    FlattenDistinct(Run(cfg, calls).state.table, cfg.keys);
    ReadOnceIff(cfg, calls);
  }

  lemma {:induction false} UnspilledNeverFails<K, C>(cfg: Config<K, C>, calls: seq<Call<K>>)
    requires cfg.keys.buckets > 0 && LayoutOk(cfg.lay) && Run(cfg, calls).evicted == []
    ensures !Run(cfg, calls).failed
  {
    if |calls| > 0 {
      var init := calls[..|calls| - 1];
      assert Run(cfg, init).evicted == [];
      UnspilledNeverFails(cfg, init);
    }
  }

  lemma {:induction false} CompleteNeverFails<K, C>(cfg: Config<K, C>, calls: seq<Call<K>>)
    requires cfg.keys.buckets > 0 && LayoutOk(cfg.lay)
    requires forall i :: 0 <= i < |calls| ==> calls[i].write == Complete
    ensures !Run(cfg, calls).failed
  {
    if |calls| > 0 {
      CompleteNeverFails(cfg, calls[..|calls| - 1]);
    }
  }

  // ---- Which key an entry carries ----

  /** Call `k` brings a key of which no equal one is resident: it is let into the table. */
  predicate Admits<K, C(==)>(cfg: Config<K, C>, calls: seq<Call<K>>, k: nat)
    requires cfg.keys.buckets > 0 && LayoutOk(cfg.lay) && k < |calls|
  {
    !Holds(Run(cfg, calls[..k]).state.table[Slot(cfg.keys, calls[k].key)], cfg.keys.id, cfg.keys.id(calls[k].key))
  }

  /** The keys of the calls that were let into the table, in order. */
  function Admitted<K, C(==)>(cfg: Config<K, C>, calls: seq<Call<K>>): seq<K>
    requires cfg.keys.buckets > 0 && LayoutOk(cfg.lay)
  {
    if |calls| == 0 then []
    else
      var last := |calls| - 1;
      Admitted(cfg, calls[..last]) + (if Admits(cfg, calls, last) then [calls[last].key] else [])
  }

  lemma {:induction false} CountUpdate<K>(es: seq<Entry<K>>, i: nat, e: Entry<K>, p: K -> bool)
    requires i < |es|
    ensures Count(es[i := e], p) + (if p(es[i].item) then 1 else 0) == Count(es, p) + (if p(e.item) then 1 else 0)
  {
    var last := |es| - 1;
    if i == last {
      assert es[i := e][..last] == es[..last];
    } else {
      assert es[i := e][..last] == es[..last][i := e];
      CountUpdate(es[..last], i, e, p);
    }
  }

  lemma {:induction false} CountSameItems<K>(a: seq<Entry<K>>, b: seq<Entry<K>>, p: K -> bool)
    requires |a| == |b| && forall i :: 0 <= i < |a| ==> a[i].item == b[i].item
    ensures Count(a, p) == Count(b, p)
  {
    if |a| > 0 {
      CountSameItems(a[..|a| - 1], b[..|b| - 1], p);
    }
  }

  /** One add, item by item: what stays and what leaves is what was there, and the key if it was let in. */
  lemma {:induction false} BucketAddCount<K, C>(b: seq<Entry<K>>, id: K -> C, key: K, count: int, p: K -> bool)
    ensures var a := BucketAdd(b, id, key, count);
      Count(a.bucket, p) + (if a.evicted.Some? && p(a.evicted.value.item) then 1 else 0)
        == Count(b, p) + (if !Holds(b, id, id(key)) && p(key) then 1 else 0)
  {
    var a := BucketAdd(b, id, key, count);
    if Holds(b, id, id(key)) {
      CountSameItems(a.bucket, b, p);
    } else if |b| < ASSOCIATIVITY {
      assert (b + [Entry(key, count)])[..|b|] == b;
    } else {
      CountUpdate(b, FirstMin(b), Entry(key, count), p);
    }
  }

  lemma {:induction false} FlattenCount<K>(t: Table<K>, i: nat, b: seq<Entry<K>>, p: K -> bool)
    requires i < |t|
    ensures Count(Flatten(t[i := b]), p) + Count(t[i], p) == Count(Flatten(t), p) + Count(b, p)
  {
    var last := |t| - 1;
    CountConcat(Flatten(t[..last]), t[last], p);
    if i == last {
      assert t[i := b][..last] == t[..last];
      CountConcat(Flatten(t[..last]), b, p);
    } else {
      assert t[i := b][..last] == t[..last][i := b];
      FlattenCount(t[..last], i, b, p);
      CountConcat(Flatten(t[..last][i := b]), t[last], p);
    }
  }

  lemma {:induction false} ThenCounts<K, C>(cfg: Config<K, C>, t: Trace<K>, call: Call<K>, p: K -> bool)
    requires |t.state.table| == cfg.keys.buckets > 0
    requires LayoutOk(cfg.lay) && |t.state.log.buffer| == cfg.lay.block
    ensures var after := Then(cfg, t, call);
      var resident := Holds(t.state.table[Slot(cfg.keys, call.key)], cfg.keys.id, cfg.keys.id(call.key));
      Count(Flatten(after.state.table), p) + Count(after.evicted, p)
        == Count(Flatten(t.state.table), p) + Count(t.evicted, p) + (if !resident && p(call.key) then 1 else 0)
  {
    var s := Slot(cfg.keys, call.key);
    var a := BucketAdd(t.state.table[s], cfg.keys.id, call.key, call.count);
    BucketAddCount(t.state.table[s], cfg.keys.id, call.key, call.count, p);
    FlattenCount(t.state.table, s, a.bucket, p);
    if a.evicted.Some? {
      assert (t.evicted + [a.evicted.value])[..|t.evicted|] == t.evicted;
    } else {
      assert t.evicted + [] == t.evicted;
    }
  }

  /** Over every run: residents and evicted entries carry exactly the keys that were let in. */
  lemma {:induction false} ItemsAreAdmitted<K(!new), C>(cfg: Config<K, C>, calls: seq<Call<K>>, p: K -> bool)
    requires ConfigOk(cfg)
    ensures var t := Run(cfg, calls);
      Count(Flatten(t.state.table), p) + Count(t.evicted, p) == Count(Ones(Admitted(cfg, calls)), p)
  {
    if |calls| == 0 {
      EmptyTable<K>(cfg.keys.buckets);
    } else {
      var last := |calls| - 1;
      var before := Admitted(cfg, calls[..last]);
      ItemsAreAdmitted(cfg, calls[..last], p);
      ThenCounts(cfg, Run(cfg, calls[..last]), calls[last], p);
      AdmittedOne(before, calls[last].key, p);
      assert before + [] == before;
    }
  }

  lemma {:induction false} AdmittedOne<K>(before: seq<K>, key: K, p: K -> bool)
    ensures Count(Ones(before + [key]), p) == Count(Ones(before), p) + (if p(key) then 1 else 0)
  {
    assert Ones(before + [key]) == Ones(before) + [Entry(key, 1)];
    assert (Ones(before) + [Entry(key, 1)])[..|Ones(before)|] == Ones(before);
  }

  /** What is read carries, field for field and each as often, the keys of the calls that were let into the table:
      merging leaves an entry the key it came in with. */
  lemma {:induction false} ReadItemsAreAdmitted<K(!new), C>(cfg: Config<K, C>, calls: seq<Call<K>>, p: K -> bool)
    requires ConfigOk(cfg) && !Run(cfg, calls).failed
    ensures StateOk(Run(cfg, calls).state, cfg) && Stream(Run(cfg, calls).state, cfg, true).Ok?
    ensures Count(Stream(Run(cfg, calls).state, cfg, true).value, p) == Count(Ones(Admitted(cfg, calls)), p)
  {
    RunKeeps(cfg, calls);
    StreamCount(cfg, Run(cfg, calls), p);
    ItemsAreAdmitted(cfg, calls, p);
  }

  function Equals<K(==)>(item: K): K -> bool { k => k == item }

  lemma {:induction false} CountFinds<K>(es: seq<Entry<K>>, p: K -> bool) returns (i: nat)
    requires Count(es, p) > 0
    ensures i < |es| && p(es[i].item)
  {
    var last := |es| - 1;
    if p(es[last].item) {
      i := last;
    } else {
      i := CountFinds(es[..last], p);
    }
  }

  lemma {:induction false} CountFound<K>(es: seq<Entry<K>>, p: K -> bool, i: nat)
    requires i < |es| && p(es[i].item)
    ensures Count(es, p) > 0
  {
    if i < |es| - 1 {
      CountFound(es[..|es| - 1], p, i);
    }
  }

  lemma {:induction false} AdmittedByCall<K, C>(cfg: Config<K, C>, calls: seq<Call<K>>, i: nat) returns (k: nat)
    requires cfg.keys.buckets > 0 && LayoutOk(cfg.lay) && i < |Admitted(cfg, calls)|
    ensures k < |calls| && Admits(cfg, calls, k) && calls[k].key == Admitted(cfg, calls)[i]
  {
    var last := |calls| - 1;
    if i < |Admitted(cfg, calls[..last])| {
      k := AdmittedByCall(cfg, calls[..last], i);
      assert calls[..last][..k] == calls[..k];
    } else {
      k := last;
    }
  }

  /** Every entry read carries, in all its fields, the key of a call that was let into the table. */
  lemma {:induction false} ReadFromAdmittingCall<K(!new), C>(
    cfg: Config<K, C>, calls: seq<Call<K>>, e: Entry<K>) returns (k: nat)
    requires ConfigOk(cfg) && !Run(cfg, calls).failed && StateOk(Run(cfg, calls).state, cfg)
    requires Stream(Run(cfg, calls).state, cfg, true).Ok? && e in Stream(Run(cfg, calls).state, cfg, true).value
    ensures k < |calls| && Admits(cfg, calls, k) && calls[k].key == e.item
  {
    var es, p := Stream(Run(cfg, calls).state, cfg, true).value, Equals(e.item);
    var i :| 0 <= i < |es| && es[i] == e;
    ReadItemsAreAdmitted(cfg, calls, p);
    CountFound(es, p, i);
    var j := CountFinds(Ones(Admitted(cfg, calls)), p);
    k := AdmittedByCall(cfg, calls, j);
  }

  /** Call `k` is the first to bring a key of its class. */
  ghost predicate IsFirstOfClass<K, C>(id: K -> C, calls: seq<Call<K>>, k: nat)
    requires k < |calls|
  {
    forall j :: 0 <= j < k ==> id(calls[j].key) != id(calls[k].key)
  }

  lemma {:induction false} FirstOfClass<K, C>(id: K -> C, calls: seq<Call<K>>, k: nat) returns (f: nat)
    requires k < |calls|
    ensures f <= k && id(calls[f].key) == id(calls[k].key) && IsFirstOfClass(id, calls, f)
  {
    f := k;
    if !IsFirstOfClass(id, calls, k) {
      var j :| 0 <= j < k && id(calls[j].key) == id(calls[k].key);
      f := FirstOfClass(id, calls, j);
    }
  }

  /** A class that is resident was brought before. */
  lemma {:induction false} ResidentWasBrought<K(!new), C>(cfg: Config<K, C>, calls: seq<Call<K>>, k: nat)
    returns (j: nat)
    requires ConfigOk(cfg) && k < |calls| && !Admits(cfg, calls, k)
    ensures j < k && cfg.keys.id(calls[j].key) == cfg.keys.id(calls[k].key)
  {
    var init, key := calls[..k], calls[k].key;
    var table := Run(cfg, init).state.table;
    var bucket := table[Slot(cfg.keys, key)];
    var i :| 0 <= i < |bucket| && cfg.keys.id(bucket[i].item) == cfg.keys.id(key);
    FlattenMember(table, bucket[i]);
    ItemsAreBrought(cfg, init, bucket[i]);
    j :| 0 <= j < |init| && init[j].key == bucket[i].item;
  }

  /** The first call of a class finds none resident. */
  lemma {:induction false} FirstIsAdmitted<K(!new), C>(cfg: Config<K, C>, calls: seq<Call<K>>, k: nat)
    requires ConfigOk(cfg) && k < |calls| && IsFirstOfClass(cfg.keys.id, calls, k)
    ensures Admits(cfg, calls, k)
  {
    if !Admits(cfg, calls, k) {
      var j := ResidentWasBrought(cfg, calls, k);
    }
  }

  lemma {:induction false} AdmissionsGrow<K, C>(cfg: Config<K, C>, calls: seq<Call<K>>, n: nat, c: C)
    requires cfg.keys.buckets > 0 && LayoutOk(cfg.lay) && n <= |calls|
    ensures Admissions(cfg, calls[..n], c) <= Admissions(cfg, calls, c)
  {
    if n < |calls| {
      var last := |calls| - 1;
      AdmissionsGrow(cfg, calls[..last], n, c);
      assert calls[..last][..n] == calls[..n];
      AdmissionsStep(cfg, calls, c);
    } else {
      assert calls[..n] == calls;
    }
  }

  lemma {:induction false} AdmissionsStep<K, C>(cfg: Config<K, C>, calls: seq<Call<K>>, c: C)
    requires cfg.keys.buckets > 0 && LayoutOk(cfg.lay) && |calls| > 0
    ensures Admissions(cfg, calls[..|calls| - 1], c) <= Admissions(cfg, calls, c)
  {
  }

  lemma {:induction false} AdmissionCounts<K, C>(cfg: Config<K, C>, calls: seq<Call<K>>, k: nat)
    requires cfg.keys.buckets > 0 && LayoutOk(cfg.lay) && k < |calls| && Admits(cfg, calls, k)
    ensures var c := cfg.keys.id(calls[k].key);
      Admissions(cfg, calls[..k], c) + 1 <= Admissions(cfg, calls, c)
  {
    assert calls[..k + 1][..k] == calls[..k];
    AdmissionsGrow(cfg, calls, k + 1, cfg.keys.id(calls[k].key));
  }

  lemma {:induction false} AdmittedTwice<K, C>(cfg: Config<K, C>, calls: seq<Call<K>>, f: nat, k: nat)
    requires cfg.keys.buckets > 0 && LayoutOk(cfg.lay) && f < k < |calls|
    requires Admits(cfg, calls, f) && Admits(cfg, calls, k)
    requires cfg.keys.id(calls[f].key) == cfg.keys.id(calls[k].key)
    ensures Admissions(cfg, calls, cfg.keys.id(calls[k].key)) > 1
  {
    assert calls[..k][..f] == calls[..f] && calls[..k][f] == calls[f];
    AdmissionCounts(cfg, calls[..k], f);
    AdmissionCounts(cfg, calls, k);
  }

  /** Where no key came back, a class is let in by its first call alone. */
  lemma {:induction false} OnlyFirstIsAdmitted<K(!new), C>(cfg: Config<K, C>, calls: seq<Call<K>>, k: nat)
    requires ConfigOk(cfg) && NoneReturns(cfg, calls) && k < |calls| && Admits(cfg, calls, k)
    ensures IsFirstOfClass(cfg.keys.id, calls, k)
  {
    var f := FirstOfClass(cfg.keys.id, calls, k);
    if f < k {
      FirstIsAdmitted(cfg, calls, f);
      AdmittedTwice(cfg, calls, f, k);
    }
  }

  /** Where no key came back, every entry read carries the key of the first call of its class. */
  lemma {:induction false} ReadFromFirstCall<K(!new), C>(
    cfg: Config<K, C>, calls: seq<Call<K>>, e: Entry<K>) returns (k: nat)
    requires ConfigOk(cfg) && !Run(cfg, calls).failed && StateOk(Run(cfg, calls).state, cfg)
    requires NoneReturns(cfg, calls)
    requires Stream(Run(cfg, calls).state, cfg, true).Ok? && e in Stream(Run(cfg, calls).state, cfg, true).value
    ensures k < |calls| && calls[k].key == e.item && IsFirstOfClass(cfg.keys.id, calls, k)
  {
    k := ReadFromAdmittingCall(cfg, calls, e);
    OnlyFirstIsAdmitted(cfg, calls, k);
  }

  // ---- A run that reads a class twice ----

  /** One count for each key in turn, with a file system that always answers. */
  function OnceEach<K>(keys: seq<K>): seq<Call<K>> {
    seq(|keys|, i requires 0 <= i < |keys| => Call(keys[i], 1, Complete))
  }

  function Ones<K>(keys: seq<K>): seq<Entry<K>> {
    seq(|keys|, i requires 0 <= i < |keys| => Entry(keys[i], 1))
  }

  /** After `brought`, bucket `s` holds one count for each of `held`, and `gone` were evicted. */
  ghost predicate Leaves<K, C>(cfg: Config<K, C>, brought: seq<K>, s: nat, held: seq<K>, gone: seq<K>)
    requires cfg.keys.buckets > s && LayoutOk(cfg.lay)
  {
    var t := Run(cfg, OnceEach(brought));
    t.state.table[s] == Ones(held) && t.evicted == Ones(gone)
  }

  lemma {:induction false} OneMore<K, C>(
    cfg: Config<K, C>, brought: seq<K>, s: nat, held: seq<K>, gone: seq<K>, key: K)
    requires LayoutOk(cfg.lay) && s < cfg.keys.buckets && Slot(cfg.keys, key) == s
    requires Leaves(cfg, brought, s, held, gone)
    requires forall i :: 0 <= i < |held| ==> cfg.keys.id(held[i]) != cfg.keys.id(key)
    ensures |held| < 4 ==> Leaves(cfg, brought + [key], s, held + [key], gone)
    ensures |held| == 4 ==> Leaves(cfg, brought + [key], s, [key] + held[1..], gone + [held[0]])
  {
    var call := Call(key, 1, Complete);
    RunThen(cfg, OnceEach(brought), call);
    assert OnceEach(brought + [key]) == OnceEach(brought) + [call];
    var b := Ones(held);
    assert !Holds(b, cfg.keys.id, cfg.keys.id(key));
    if |held| < 4 {
      assert Ones(held + [key]) == b + [Entry(key, 1)];
      assert Ones(gone) + [] == Ones(gone);
    } else if |held| == 4 {
      assert FirstMin(b) == 0 by {
        assert IsFirstMin(b, FirstMin(b)) && b[0].count == b[FirstMin(b)].count;
      }
      assert Ones([key] + held[1..]) == b[0 := Entry(key, 1)];
      assert Ones(gone + [held[0]]) == Ones(gone) + [b[0]];
    }
  }

  /** Five unequal keys of one bucket fill it and evict the first; brought again, the first is let in a second
      time, while its old entry waits in the log. */
  lemma {:induction false} ReturningKey<K(!new), C>(cfg: Config<K, C>, ks: seq<K>, again: K, s: nat)
    requires ConfigOk(cfg) && s < cfg.keys.buckets && |ks| == 5
    requires forall i :: 0 <= i < 5 ==> Slot(cfg.keys, ks[i]) == s
    requires forall i, j :: 0 <= i < j < 5 ==> cfg.keys.id(ks[i]) != cfg.keys.id(ks[j])
    requires cfg.keys.id(again) == cfg.keys.id(ks[0])
    ensures Leaves(cfg, ks + [again], s, [again] + ks[1..4], [ks[0], ks[4]])
  {
    assert Slot(cfg.keys, again) == s;
    assert Run(cfg, OnceEach<K>([])).state.table[s] == Ones<K>([]);
    FillBucket(cfg, ks, s, 4);
    OneMore(cfg, ks[..4], s, ks[..4], [], ks[4]);
    assert ks[..4] + [ks[4]] == ks;
    assert [ks[4]] + ks[..4][1..] == [ks[4]] + ks[1..4] && [] + [ks[..4][0]] == [ks[0]];
    OneMore(cfg, ks, s, [ks[4]] + ks[1..4], [ks[0]], again);
    assert ([ks[4]] + ks[1..4])[1..] == ks[1..4] && [ks[0]] + [ks[4]] == [ks[0], ks[4]];
  }

  lemma {:induction false} FillBucket<K, C>(cfg: Config<K, C>, ks: seq<K>, s: nat, n: nat)
    requires LayoutOk(cfg.lay) && s < cfg.keys.buckets && n <= 4 && n <= |ks|
    requires forall i :: 0 <= i < |ks| ==> Slot(cfg.keys, ks[i]) == s
    requires forall i, j :: 0 <= i < j < |ks| ==> cfg.keys.id(ks[i]) != cfg.keys.id(ks[j])
    ensures Leaves(cfg, ks[..n], s, ks[..n], [])
  {
    if n > 0 {
      FillBucket(cfg, ks, s, n - 1);
      OneMore(cfg, ks[..n - 1], s, ks[..n - 1], [], ks[n - 1]);
      assert ks[..n - 1] + [ks[n - 1]] == ks[..n];
    }
  }

  /** What is read after such a run: the returned key from the table, and its old entry from the log. */
  lemma {:induction false} ReturningKeyIsReadTwice<K(!new), C>(
    cfg: Config<K, C>, ks: seq<K>, again: K, s: nat) returns (stream: seq<Entry<K>>)
    requires ConfigOk(cfg) && s < cfg.keys.buckets && |ks| == 5
    requires forall i :: 0 <= i < 5 ==> Slot(cfg.keys, ks[i]) == s
    requires forall i, j :: 0 <= i < j < 5 ==> cfg.keys.id(ks[i]) != cfg.keys.id(ks[j])
    requires cfg.keys.id(again) == cfg.keys.id(ks[0])
    ensures var t := Run(cfg, OnceEach(ks + [again]));
      !t.failed && StateOk(t.state, cfg) && Stream(t.state, cfg, true) == Ok(stream)
    ensures Entry(ks[0], 1) in stream && Entry(again, 1) in stream
  {
    var calls := OnceEach(ks + [again]);
    var t := Run(cfg, calls);
    CompleteNeverFails(cfg, calls);
    RunKeeps(cfg, calls);
    ReturningKey(cfg, ks, again, s);
    assert t.state.table[s][0] == Entry(again, 1) && t.evicted[0] == Entry(ks[0], 1);
    ReadWhatIsLeft(cfg, t, Entry(again, 1), s, Entry(ks[0], 1));
    stream := Stream(t.state, cfg, true).value;
  }

  lemma {:induction false} ReadWhatIsLeft<K(!new), C>(
    cfg: Config<K, C>, t: Trace<K>, resident: Entry<K>, s: nat, evicted: Entry<K>)
    requires ConfigOk(cfg) && TraceOk(t, cfg) && !t.failed
    requires s < |t.state.table| && resident in t.state.table[s] && evicted in t.evicted
    ensures Stream(t.state, cfg, true).Ok?
    ensures resident in Stream(t.state, cfg, true).value && evicted in Stream(t.state, cfg, true).value
  {
    StreamOfTrace(cfg, t);
    FlattenMember(t.state.table, resident);
    var n := |t.evicted| - t.state.log.index;
    assert t.evicted == t.evicted[..n] + t.evicted[n..];
  }

  class Collector<K, C(==)> {
    const cfg: Config<K, C>
    const counter: HashCounter<K, C>
    const tempArray: TempFdArray<K>
    ghost const Repr: set<object>

    ghost predicate Valid()
      reads this, Repr
      ensures Valid() ==> this in Repr
    {
      && this in Repr && counter in Repr && counter.Repr <= Repr && this !in counter.Repr
      && tempArray in Repr && tempArray.buffer in Repr
      && tempArray !in counter.Repr && tempArray.buffer !in counter.Repr
      && counter.keys == cfg.keys && tempArray.lay == cfg.lay
      && counter.Valid() && tempArray.Valid()
    }

    ghost function Contents(): (s: State<K>)
      requires Valid()
      reads this, Repr
      ensures |s.table| == cfg.keys.buckets && LogOk(s.log, cfg.lay)
    {
      State(counter.Contents(), tempArray.State())
    }

    /** `Collector::new` once the temporary file exists. */
    constructor (cfg: Config<K, C>)
      requires cfg.keys.buckets > 0 && LayoutOk(cfg.lay)
      ensures Valid() && fresh(Repr) && this.cfg == cfg && Contents() == Fresh(cfg)
    {
      var h := new HashCounter(cfg.keys, cfg.default);
      var t := new TempFdArray(cfg.lay, Entry(cfg.default, 0));
      this.cfg, counter, tempArray := cfg, h, t;
      Repr := {this, t, t.buffer} + h.Repr;
    }

    method Add(key: K, count: int, w: Write) returns (ok: bool)
      requires Valid()
      modifies Repr
      ensures Valid()
      ensures var o := CollectorAdd(old(Contents()), cfg, key, count, w);
        Contents() == o.state && ok == o.ok
    {
      var evicted := counter.Add(key, count);
      ok := true;
      if evicted.Some? {
        ok := tempArray.Push(evicted.value, w);
      }
    }

    method TryIter(reopen: bool) returns (r: Result<seq<Entry<K>>, ()>)
      requires Valid()
      ensures r == Stream(Contents(), cfg, reopen)
    {
      var log := tempArray.TryIter(reopen);
      if log.Err? {
        return Err(());
      }
      var head := counter.Entries();
      var tail := log.value.Drain();
      r := Ok(head + tail);
    }
  }
}
