/** The report builders: grouping the collector's entries by equal keys. */
module Reports {
  import opened Entries
  import opened HashCounters
  import opened SpillLogs
  import opened Collectors

  /** A hash map from keys to counts. A key class has one slot; it keeps the key first inserted. */
  type Tally<K, !C> = map<C, Entry<K>>

  /** The entries with a positive count: the builders skip all others. */
  function Positive<K>(es: seq<Entry<K>>): seq<Entry<K>> {
    if |es| == 0 then []
    else Positive(es[..|es| - 1]) + (if es[|es| - 1].count > 0 then [es[|es| - 1]] else [])
  }

  function Bump<K, C>(m: Tally<K, C>, id: K -> C, e: Entry<K>): Tally<K, C> {
    var c := id(e.item);
    if c in m then m[c := Entry(m[c].item, m[c].count + e.count)] else m[c := e]
  }

  function Tallied<K, C>(es: seq<Entry<K>>, id: K -> C): Tally<K, C> {
    if |es| == 0 then map[] else Bump(Tallied(es[..|es| - 1], id), id, es[|es| - 1])
  }

  /** The group-by of one more entry. */
  lemma {:induction false} TalliedStep<K, F, C>(es: seq<Entry<K>>, n: nat, key: K -> F, id: F -> C)
    requires n < |es|
    ensures Tallied(Mapped(Positive(es[..n + 1]), key), id) ==
      var before := Tallied(Mapped(Positive(es[..n]), key), id);
      if es[n].count > 0 then Bump(before, id, Entry(key(es[n].item), es[n].count)) else before
  {
    assert es[..n + 1][..n] == es[..n];
    if es[n].count > 0 {
      var before, e := Mapped(Positive(es[..n]), key), Entry(key(es[n].item), es[n].count);
      assert Mapped(Positive(es[..n + 1]), key) == before + [e];
      assert (before + [e])[..|before|] == before;
    } else {
      assert Positive(es[..n + 1]) == Positive(es[..n]);
    }
  }

  /** The loop both builders run over the collector's entries, once `key` has been made from the entry's item. */
  method Tabulate<K, F, C(==)>(es: seq<Entry<K>>, key: K -> F, id: F -> C) returns (m: Tally<F, C>)
    ensures m == Tallied(Mapped(Positive(es), key), id)
  {
    m := map[];
    for n := 0 to |es|
      invariant m == Tallied(Mapped(Positive(es[..n]), key), id)
    {
      TalliedStep(es, n, key, id);
      var e := es[n];
      if e.count > 0 {
        var k := key(e.item);
        if id(k) in m {
          m := m[id(k) := Entry(m[id(k)].item, m[id(k)].count + e.count)];
        } else {
          m := m[id(k) := Entry(k, e.count)];
        }
      }
    }
    assert es[..|es|] == es;
  }

  /** The same entries with their items transformed. */
  function Mapped<K, F>(es: seq<Entry<K>>, f: K -> F): seq<Entry<F>> {
    seq(|es|, i requires 0 <= i < |es| => Entry(f(es[i].item), es[i].count))
  }

  function Itself<K>(): K -> K { k => k }

  function After<K, F>(f: K -> F, q: F -> bool): K -> bool { k => q(f(k)) }

  /** The entries kept are exactly those with a positive count, in their order. */
  lemma {:induction false} PositiveExactly<K>(es: seq<Entry<K>>, e: Entry<K>)
    ensures e in Positive(es) <==> e in es && e.count > 0
  {
    if |es| > 0 {
      var init, last := es[..|es| - 1], es[|es| - 1];
      PositiveExactly(init, e);
      assert es == init + [last];
    }
  }

  lemma {:induction false} MappedSum<K, F>(es: seq<Entry<K>>, f: K -> F, q: F -> bool)
    ensures Sum(Mapped(es, f), q) == Sum(es, After(f, q))
  {
    if |es| > 0 {
      assert Mapped(es, f)[..|es| - 1] == Mapped(es[..|es| - 1], f);
      MappedSum(es[..|es| - 1], f, q);
    }
  }

  lemma {:induction false} PositiveMeaning<K>(es: seq<Entry<K>>)
    ensures AllPositive(Positive(es))
    ensures AllPositive(es) ==> Positive(es) == es
  {
    if |es| > 0 {
      var init, last := es[..|es| - 1], es[|es| - 1];
      PositiveMeaning(init);
      assert es == init + [last];
      if last.count > 0 {
        assert Positive(es) == Positive(init) + [last];
      } else {
        assert Positive(es) == Positive(init) && !AllPositive(es);
      }
    }
  }

  /** The grouping is exact: a class is a key exactly when an entry has it, and its count is the sum
      over the entries of that class; the key kept for it is of that class. */
  lemma {:induction false} TalliedMeaning<K, C>(es: seq<Entry<K>>, id: K -> C, c: C)
    ensures c in Tallied(es, id) <==> Holds(es, id, c)
    ensures c in Tallied(es, id) ==>
      Tallied(es, id)[c].count == Sum(es, OfClass(id, c)) && id(Tallied(es, id)[c].item) == c
  {
    if |es| > 0 {
      var last := |es| - 1;
      TalliedMeaning(es[..last], id, c);
      if Holds(es, id, c) && id(es[last].item) != c {
        var i :| 0 <= i < |es| && id(es[i].item) == c;
        assert id(es[..last][i].item) == c;
      }
      if c !in Tallied(es[..last], id) {
        SumNone(es[..last], OfClass(id, c));
      }
    }
  }

  /** The key kept for a class is that of the first entry of the class. */
  lemma {:induction false} TalliedKeepsFirst<K, C>(es: seq<Entry<K>>, id: K -> C, c: C) returns (i: nat)
    requires c in Tallied(es, id)
    ensures i < |es| && id(es[i].item) == c && Tallied(es, id)[c].item == es[i].item
    ensures forall j :: 0 <= j < i ==> id(es[j].item) != c
  {
    var init := es[..|es| - 1];
    if c in Tallied(init, id) {
      i := TalliedKeepsFirst(init, id, c);
      assert forall j :: 0 <= j < i ==> init[j] == es[j];
    } else {
      i := |es| - 1;
      TalliedMeaning(init, id, c);
      forall j | 0 <= j < i ensures id(es[j].item) != c {
        assert init[j] == es[j];
      }
    }
  }

  /** An iteration over the map: every key class once, in any order. */
  ghost predicate Enumerates<K, C>(order: seq<C>, m: Tally<K, C>) {
    && (forall i, j :: 0 <= i < j < |order| ==> order[i] != order[j])
    && (forall i :: 0 <= i < |order| ==> order[i] in m)
    && (forall c | c in m :: c in order)
  }

  /** Such an iteration is as long as the map is large. */
  lemma {:induction false} OrderCounts<F, D>(order: seq<D>, data: Tally<F, D>)
    requires Enumerates(order, data)
    ensures |order| == |data|
  {
    var met := set i | 0 <= i < |order| :: order[i];
    SeqSetCount(order, met);
    assert met == data.Keys;
  }

  lemma {:induction false} SeqSetCount<D>(order: seq<D>, met: set<D>)
    requires forall i, j :: 0 <= i < j < |order| ==> order[i] != order[j]
    requires met == set i | 0 <= i < |order| :: order[i]
    ensures |met| == |order|
  {
    if |order| > 0 {
      var init := order[..|order| - 1];
      var before := set i | 0 <= i < |init| :: init[i];
      SeqSetCount(init, before);
      assert met == before + {order[|order| - 1]} by {
        forall d | d in met ensures d in before + {order[|order| - 1]} {
          var i :| 0 <= i < |order| && order[i] == d;
          assert i < |init| ==> init[i] == d;
        }
        forall d | d in before ensures d in met {
          var i :| 0 <= i < |init| && init[i] == d;
          assert order[i] == d;
        }
      }
    }
  }

  function Slots<K, C>(m: Tally<K, C>, order: seq<C>): seq<Entry<K>>
    requires forall i :: 0 <= i < |order| ==> order[i] in m
  {
    seq(|order|, i requires 0 <= i < |order| => m[order[i]])
  }

  /** The keys `q` selects whose class is among `cs`. */
  function Among<K, C(==)>(q: K -> bool, id: K -> C, cs: seq<C>): K -> bool {
    k => q(k) && id(k) in cs
  }

  /** Among `es`, keys of one class agree on `q`. */
  ghost predicate RespectsOn<K, C>(q: K -> bool, id: K -> C, es: seq<Entry<K>>) {
    forall i, j :: 0 <= i < |es| && 0 <= j < |es| && id(es[i].item) == id(es[j].item) ==>
      q(es[i].item) == q(es[j].item)
  }

  /** Where the keys of a class agree, they agree with the one kept for it. */
  lemma {:induction false} KeptSpeaksForAll<K, C>(es: seq<Entry<K>>, id: K -> C, c: C, q: K -> bool)
    requires c in Tallied(es, id) && RespectsOn(q, id, es)
    ensures forall i :: 0 <= i < |es| && id(es[i].item) == c ==> q(es[i].item) == q(Tallied(es, id)[c].item)
  {
    var first := TalliedKeepsFirst(es, id, c);
  }

  lemma {:induction false} SlotsSum<K, C>(es: seq<Entry<K>>, id: K -> C, order: seq<C>, q: K -> bool)
    requires RespectsOn(q, id, es)
    requires forall i, j :: 0 <= i < j < |order| ==> order[i] != order[j]
    requires forall i :: 0 <= i < |order| ==> order[i] in Tallied(es, id)
    ensures Sum(Slots(Tallied(es, id), order), q) == Sum(es, Among(q, id, order))
  {
    var m := Tallied(es, id);
    if |order| == 0 {
      SumNone(es, Among(q, id, order));
    } else {
      var init, c := order[..|order| - 1], order[|order| - 1];
      SlotsSum(es, id, init, q);
      assert Slots(m, order)[..|init|] == Slots(m, init);
      TalliedMeaning(es, id, c);
      KeptSpeaksForAll(es, id, c, q);
      if q(m[c].item) {
        SumSplit(es, Among(q, id, order), Among(q, id, init), OfClass(id, c));
      } else {
        SumSame(es, Among(q, id, order), Among(q, id, init));
      }
    }
  }

  /** In whatever order the map is read, a selection of key classes sums to what the entries held for it. */
  lemma {:induction false} TallyConserves<K, C>(es: seq<Entry<K>>, id: K -> C, order: seq<C>, q: K -> bool)
    requires RespectsOn(q, id, es) && Enumerates(order, Tallied(es, id))
    ensures Sum(Slots(Tallied(es, id), order), q) == Sum(es, q)
  {
    SlotsSum(es, id, order, q);
    forall i | 0 <= i < |es| ensures Among(q, id, order)(es[i].item) == q(es[i].item) {
      TalliedMeaning(es, id, id(es[i].item));
    }
    SumSame(es, Among(q, id, order), q);
  }

  /** `build_unresolved` over a run of the collector. */
  function UnresolvedReport<K, C>(stream: seq<Entry<K>>, id: K -> C): Tally<K, C> {
    Tallied(Mapped(Positive(stream), Itself()), id)
  }

  /** `build`: keys are made by `render`, the post-processor after `Frames::from`. */
  function Report<K, F, D>(stream: seq<Entry<K>>, render: K -> F, fid: F -> D): Tally<F, D> {
    Tallied(Mapped(Positive(stream), render), fid)
  }

  lemma {:induction false} UnresolvedIsTallied<K, C>(stream: seq<Entry<K>>, id: K -> C)
    ensures UnresolvedReport(stream, id) == Tallied(Positive(stream), id)
  {
    var es := Positive(stream);
    assert forall i :: 0 <= i < |es| ==> Mapped(es, Itself())[i] == es[i];
    assert Mapped(es, Itself()) == es;
  }

  /** Entries that agree with `asked` on a key class give the unresolved report exactly what was asked for it. */
  lemma {:induction false} TallyOfEqualSums<K, C>(stream: seq<Entry<K>>, asked: seq<Entry<K>>, id: K -> C, c: C)
    requires AllPositive(stream) && AllPositive(asked)
    requires Sum(stream, OfClass(id, c)) == Sum(asked, OfClass(id, c))
    ensures var r := UnresolvedReport(stream, id);
      && (c in r <==> Holds(asked, id, c))
      && (c in r ==> r[c].count == Sum(asked, OfClass(id, c)) && id(r[c].item) == c)
  {
    UnresolvedIsTallied(stream, id);
    PositiveMeaning(stream);
    TalliedMeaning(stream, id, c);
    SumPositive(stream, OfClass(id, c));
    SumPositive(asked, OfClass(id, c));
  }

  /** Reading the collector after `calls` yields `stream`. */
  ghost predicate ReadAs<K, C>(cfg: Config<K, C>, calls: seq<Call<K>>, stream: seq<Entry<K>>)
    requires cfg.keys.buckets > 0 && LayoutOk(cfg.lay)
  {
    var t := Run(cfg, calls);
    !t.failed && StateOk(t.state, cfg) && Stream(t.state, cfg, true) == Ok(stream)
  }

  /** End to end: after any run with positive counts and no failed call, `build_unresolved` is exactly
      the map of counts: no missing key, no extra key, every count right. */
  lemma {:induction false} UnresolvedReportIsExact<K(!new), C>(cfg: Config<K, C>, calls: seq<Call<K>>, c: C)
    requires ConfigOk(cfg) && AllPositive(Asked(calls)) && !Run(cfg, calls).failed
    ensures StateOk(Run(cfg, calls).state, cfg) && Stream(Run(cfg, calls).state, cfg, true).Ok?
    ensures var r := UnresolvedReport(Stream(Run(cfg, calls).state, cfg, true).value, cfg.keys.id);
      && (c in r <==> Holds(Asked(calls), cfg.keys.id, c))
      && (c in r ==> r[c].count == Sum(Asked(calls), OfClass(cfg.keys.id, c)) && cfg.keys.id(r[c].item) == c)
  {
    StreamPositive(cfg, calls);
    StreamIsExact(cfg, calls, true, OfClass(cfg.keys.id, c));
    TallyOfEqualSums(Stream(Run(cfg, calls).state, cfg, true).value, Asked(calls), cfg.keys.id, c);
  }

  /** Both reports hold the same total, whatever `render` does and in whatever order they are read. */
  lemma {:induction false} TotalsAgree<K, C, F, D>(
    stream: seq<Entry<K>>, id: K -> C, render: K -> F, fid: F -> D, order: seq<C>, forder: seq<D>)
    requires Enumerates(order, UnresolvedReport(stream, id))
    requires Enumerates(forder, Report(stream, render, fid))
    ensures Sum(Slots(Report(stream, render, fid), forder), All())
      == Sum(Slots(UnresolvedReport(stream, id), order), All())
      == Sum(Positive(stream), All())
  {
    UnresolvedIsTallied(stream, id);
    TallyConserves(Positive(stream), id, order, All());
    TallyConserves(Mapped(Positive(stream), render), fid, forder, All());
    MappedSum(Positive(stream), render, All<F>());
    SumSame(Positive(stream), After(render, All()), All());
  }

  // ---- The report as an image of the unresolved report ----

  /** Entries of one key class render to equal keys. */
  ghost predicate RendersAlike<K, C, F, D>(es: seq<Entry<K>>, id: K -> C, render: K -> F, fid: F -> D) {
    forall i, j :: 0 <= i < |es| && 0 <= j < |es| && id(es[i].item) == id(es[j].item) ==>
      fid(render(es[i].item)) == fid(render(es[j].item))
  }

  /** Entries of different key classes render to different keys. */
  ghost predicate KeepsApart<K, C, F, D>(es: seq<Entry<K>>, id: K -> C, render: K -> F, fid: F -> D) {
    forall i, j :: 0 <= i < |es| && 0 <= j < |es| && fid(render(es[i].item)) == fid(render(es[j].item)) ==>
      id(es[i].item) == id(es[j].item)
  }

  /** At the key `d` the report is the image of the unresolved report: it has the key exactly when some key of
      the unresolved report renders to it, and counts there what those keys count together. */
  ghost predicate ImageAt<K, C, F, D>(
    stream: seq<Entry<K>>, id: K -> C, render: K -> F, fid: F -> D, order: seq<C>, d: D)
    requires Enumerates(order, UnresolvedReport(stream, id))
  {
    var slots := Slots(UnresolvedReport(stream, id), order);
    var r := Report(stream, render, fid);
    && (d in r <==> exists i :: 0 <= i < |slots| && fid(render(slots[i].item)) == d)
    && (d in r ==> r[d].count == Sum(slots, After(render, OfClass(fid, d))))
  }

  /** A key of the report is the rendering of some entry, and counts the entries that render to it. */
  lemma {:induction false} ReportMeaning<K, F, D>(stream: seq<Entry<K>>, render: K -> F, fid: F -> D, d: D)
    ensures var es := Positive(stream);
      var r := Report(stream, render, fid);
      && (d in r <==> exists i :: 0 <= i < |es| && fid(render(es[i].item)) == d)
      && (d in r ==> r[d].count == Sum(es, After(render, OfClass(fid, d))))
  {
    var es := Positive(stream);
    var mapped := Mapped(es, render);
    TalliedMeaning(mapped, fid, d);
    MappedSum(es, render, OfClass(fid, d));
    assert Report(stream, render, fid) == Tallied(mapped, fid);
    assert Holds(mapped, fid, d) <==> exists i :: 0 <= i < |es| && fid(render(es[i].item)) == d by {
      assert forall i :: 0 <= i < |es| ==> mapped[i].item == render(es[i].item);
      if i :| 0 <= i < |es| && fid(render(es[i].item)) == d {
        assert fid(mapped[i].item) == d;
      }
    }
  }

  lemma {:induction false} SlotsPositive<K, C>(stream: seq<Entry<K>>, id: K -> C, order: seq<C>)
    requires Enumerates(order, UnresolvedReport(stream, id))
    ensures AllPositive(Slots(UnresolvedReport(stream, id), order))
  {
    var es := Positive(stream);
    UnresolvedIsTallied(stream, id);
    PositiveMeaning(stream);
    forall i | 0 <= i < |order| ensures UnresolvedReport(stream, id)[order[i]].count > 0 {
      TalliedMeaning(es, id, order[i]);
      SumPositive(es, OfClass(id, order[i]));
    }
  }

  /** Some entry's item satisfies `q`. */
  ghost predicate Meets<K>(es: seq<Entry<K>>, q: K -> bool) {
    exists i :: 0 <= i < |es| && q(es[i].item)
  }

  lemma {:induction false} MeetsRendering<K, F, D>(es: seq<Entry<K>>, render: K -> F, fid: F -> D, d: D)
    ensures Meets(es, After(render, OfClass(fid, d))) <==> exists i :: 0 <= i < |es| && fid(render(es[i].item)) == d
  {
    var q := After(render, OfClass(fid, d));
    if i :| 0 <= i < |es| && fid(render(es[i].item)) == d {
      assert q(es[i].item);
    }
    if i :| 0 <= i < |es| && q(es[i].item) {
      assert fid(render(es[i].item)) == d;
    }
  }

  /** When the entries read of equal stacks render to equal keys, the report is the image of the unresolved
      report, colliding counts summed. */
  lemma {:induction false} ReportIsImage<K, C, F, D>(
    stream: seq<Entry<K>>, id: K -> C, render: K -> F, fid: F -> D, order: seq<C>, d: D)
    requires Enumerates(order, UnresolvedReport(stream, id))
    requires RendersAlike(Positive(stream), id, render, fid)
    ensures ImageAt(stream, id, render, fid, order, d)
  {
    var es := Positive(stream);
    var q := After(render, OfClass(fid, d));
    var slots := Slots(UnresolvedReport(stream, id), order);
    UnresolvedIsTallied(stream, id);
    PositiveMeaning(stream);
    ReportMeaning(stream, render, fid, d);
    assert RespectsOn(q, id, es);
    TallyConserves(es, id, order, q);
    SlotsPositive(stream, id, order);
    SumPositive(slots, q);
    SumPositive(es, q);
    assert Meets(es, q) <==> Meets(slots, q);
    MeetsRendering(es, render, fid, d);
    MeetsRendering(slots, render, fid, d);
  }

  /** Entries whose rendering is not the one their class is kept under put a key into the report that no key of
      the unresolved report renders to. */
  lemma {:induction false} OddOneOut<K, C, F, D>(
    stream: seq<Entry<K>>, id: K -> C, render: K -> F, fid: F -> D, order: seq<C>, i: nat)
    requires Enumerates(order, UnresolvedReport(stream, id))
    requires KeepsApart(Positive(stream), id, render, fid) && i < |Positive(stream)|
    requires ImageAt(stream, id, render, fid, order, fid(render(Positive(stream)[i].item)))
    ensures id(Positive(stream)[i].item) in UnresolvedReport(stream, id)
    ensures fid(render(Positive(stream)[i].item))
      == fid(render(UnresolvedReport(stream, id)[id(Positive(stream)[i].item)].item))
  {
    var es := Positive(stream);
    var c, d := id(es[i].item), fid(render(es[i].item));
    UnresolvedIsTallied(stream, id);
    TalliedMeaning(es, id, c);
    ReportMeaning(stream, render, fid, d);
    var slots := Slots(UnresolvedReport(stream, id), order);
    var n :| 0 <= n < |slots| && fid(render(slots[n].item)) == d;
    var first := TalliedKeepsFirst(es, id, order[n]);
    assert slots[n].item == es[first].item;
  }

  /** Where no two classes meet in a rendered key, the report is the image of the unresolved report if and only
      if the entries of each class render alike. */
  lemma {:induction false} ImageIff<K, C, F, D>(
    stream: seq<Entry<K>>, id: K -> C, render: K -> F, fid: F -> D, order: seq<C>)
    requires Enumerates(order, UnresolvedReport(stream, id))
    requires KeepsApart(Positive(stream), id, render, fid)
    ensures (forall d :: ImageAt(stream, id, render, fid, order, d))
      <==> RendersAlike(Positive(stream), id, render, fid)
  {
    var es := Positive(stream);
    if RendersAlike(es, id, render, fid) {
      forall d ensures ImageAt(stream, id, render, fid, order, d) {
        ReportIsImage(stream, id, render, fid, order, d);
      }
    }
    if forall d :: ImageAt(stream, id, render, fid, order, d) {
      forall i, j | 0 <= i < |es| && 0 <= j < |es| && id(es[i].item) == id(es[j].item)
        ensures fid(render(es[i].item)) == fid(render(es[j].item))
      {
        assert ImageAt(stream, id, render, fid, order, fid(render(es[i].item)));
        assert ImageAt(stream, id, render, fid, order, fid(render(es[j].item)));
        OddOneOut(stream, id, render, fid, order, i);
        OddOneOut(stream, id, render, fid, order, j);
      }
    }
  }

  /** The keys of class `c` that render to `d`. */
  function Meeting<K, C(==), F, D(==)>(id: K -> C, c: C, render: K -> F, fid: F -> D, d: D): K -> bool {
    k => id(k) == c && fid(render(k)) == d
  }

  function Missing<K, C(==), F, D(==)>(id: K -> C, c: C, render: K -> F, fid: F -> D, d: D): K -> bool {
    k => id(k) == c && fid(render(k)) != d
  }

  /** All that the unresolved report counts for class `c` is counted under the key `d` of the report. */
  ghost predicate WholeUnder<K, C, F, D>(
    stream: seq<Entry<K>>, id: K -> C, render: K -> F, fid: F -> D, c: C, d: D)
    requires c in UnresolvedReport(stream, id)
  {
    Sum(Positive(stream), Meeting(id, c, render, fid, d)) == UnresolvedReport(stream, id)[c].count
  }

  ghost predicate ClassRendersTo<K, C, F, D>(
    es: seq<Entry<K>>, id: K -> C, render: K -> F, fid: F -> D, c: C, d: D)
  {
    forall i :: 0 <= i < |es| && id(es[i].item) == c ==> fid(render(es[i].item)) == d
  }

  ghost predicate ClassRendersAlike<K, C, F, D>(es: seq<Entry<K>>, id: K -> C, render: K -> F, fid: F -> D, c: C) {
    forall i, j :: 0 <= i < |es| && 0 <= j < |es| && id(es[i].item) == c && id(es[j].item) == c ==>
      fid(render(es[i].item)) == fid(render(es[j].item))
  }

  /** What is counted for a class splits into what renders to `d` and what does not. */
  lemma {:induction false} MeetingSum<K, C, F, D>(
    es: seq<Entry<K>>, id: K -> C, render: K -> F, fid: F -> D, c: C, d: D)
    requires AllPositive(es)
    ensures Sum(es, Meeting(id, c, render, fid, d)) == Sum(es, OfClass(id, c))
      <==> ClassRendersTo(es, id, render, fid, c, d)
  {
    var missing := Missing(id, c, render, fid, d);
    SumSplit(es, OfClass(id, c), Meeting(id, c, render, fid, d), missing);
    SumPositive(es, missing);
    if ClassRendersTo(es, id, render, fid, c, d) {
      assert forall i :: 0 <= i < |es| ==> !missing(es[i].item);
    } else {
      var i :| 0 <= i < |es| && id(es[i].item) == c && fid(render(es[i].item)) != d;
      assert missing(es[i].item);
    }
  }

  lemma {:induction false} WholeUnderIff<K, C, F, D>(
    stream: seq<Entry<K>>, id: K -> C, render: K -> F, fid: F -> D, c: C, d: D)
    requires c in UnresolvedReport(stream, id)
    ensures WholeUnder(stream, id, render, fid, c, d) <==> ClassRendersTo(Positive(stream), id, render, fid, c, d)
  {
    UnresolvedIsTallied(stream, id);
    PositiveMeaning(stream);
    TalliedMeaning(Positive(stream), id, c);
    MeetingSum(Positive(stream), id, render, fid, c, d);
  }

  /** A key of the unresolved report stays whole, under one key of the report, if and only if the entries read
      of it render alike; otherwise its count is split over several keys. */
  lemma {:induction false} SplitIff<K, C, F, D>(
    stream: seq<Entry<K>>, id: K -> C, render: K -> F, fid: F -> D, c: C)
    requires c in UnresolvedReport(stream, id)
    ensures (exists d :: WholeUnder(stream, id, render, fid, c, d))
      <==> ClassRendersAlike(Positive(stream), id, render, fid, c)
  {
    var es := Positive(stream);
    UnresolvedIsTallied(stream, id);
    var first := TalliedKeepsFirst(es, id, c);
    var kept := fid(render(es[first].item));
    WholeUnderIff(stream, id, render, fid, c, kept);
    if ClassRendersAlike(es, id, render, fid, c) {
      assert ClassRendersTo(es, id, render, fid, c, kept);
      assert WholeUnder(stream, id, render, fid, c, kept);
    }
    if d :| WholeUnder(stream, id, render, fid, c, d) {
      WholeUnderIff(stream, id, render, fid, c, d);
    }
  }

  lemma {:induction false} DistinctRendersAlike<K, C, F, D>(
    stream: seq<Entry<K>>, id: K -> C, render: K -> F, fid: F -> D)
    requires Distinct(stream, id)
    ensures RendersAlike(Positive(stream), id, render, fid)
  {
    PositiveDistinct(stream, id);
  }

  lemma {:induction false} PositiveDistinct<K, C>(es: seq<Entry<K>>, id: K -> C)
    requires Distinct(es, id)
    ensures Distinct(Positive(es), id)
    ensures forall i :: 0 <= i < |Positive(es)| ==> Positive(es)[i] in es
  {
    if |es| > 0 {
      var init := es[..|es| - 1];
      PositiveDistinct(init, id);
      forall i | 0 <= i < |Positive(init)| ensures id(Positive(init)[i].item) != id(es[|es| - 1].item) {
        assert Positive(init)[i] in init;
      }
    }
  }

  /** After a run in which no stack was evicted and came back, the report is the image of the unresolved report,
      whatever `render` does: also for the plain rendering, which shows each stack's time. */
  lemma {:induction false} NoneReturnsIsImage<K(!new), C, F, D>(cfg: Config<K, C>, calls: seq<Call<K>>,
      stream: seq<Entry<K>>, render: K -> F, fid: F -> D, order: seq<C>, d: D)
    requires ConfigOk(cfg) && ReadAs(cfg, calls, stream) && NoneReturns(cfg, calls)
    requires Enumerates(order, UnresolvedReport(stream, cfg.keys.id))
    ensures ImageAt(stream, cfg.keys.id, render, fid, order, d)
  {
    ReadOnceIff(cfg, calls);
    DistinctRendersAlike(stream, cfg.keys.id, render, fid);
    ReportIsImage(stream, cfg.keys.id, render, fid, order, d);
  }

  /** In particular after a run in which no bucket had more than four key classes routed to it. */
  lemma {:induction false} UnspilledIsImage<K(!new), C(!new), F, D>(cfg: Config<K, C>, calls: seq<Call<K>>,
      stream: seq<Entry<K>>, render: K -> F, fid: F -> D, order: seq<C>, d: D)
    requires ConfigOk(cfg) && ReadAs(cfg, calls, stream)
    requires forall i :: 0 <= i < cfg.keys.buckets ==> |RoutedClasses(cfg.keys, calls, i)| <= 4
    requires Enumerates(order, UnresolvedReport(stream, cfg.keys.id))
    ensures ImageAt(stream, cfg.keys.id, render, fid, order, d)
  {
    NeverSpillsIff(cfg, calls);
    UnspilledReadsOnce(cfg, calls);
    NoneReturnsIsImage(cfg, calls, stream, render, fid, order, d);
  }

  // ---- The report as what was asked ----

  /** The keys whose class is in `cs`. */
  function InClasses<K, C(==)>(id: K -> C, cs: set<C>): K -> bool { k => id(k) in cs }

  /** Reading is exact for a selection that the calls' own keys agree on, class by class. */
  lemma {:induction false} StreamIsExactOn<K(!new), C>(
    cfg: Config<K, C>, calls: seq<Call<K>>, stream: seq<Entry<K>>, p: K -> bool)
    requires ConfigOk(cfg) && ReadAs(cfg, calls, stream) && RespectsOn(p, cfg.keys.id, Asked(calls))
    ensures Sum(stream, p) == Sum(Asked(calls), p)
  {
    var asked := Asked(calls);
    var cs := set i | 0 <= i < |asked| && p(asked[i].item) :: cfg.keys.id(asked[i].item);
    var q := InClasses(cfg.keys.id, cs);
    forall i | 0 <= i < |asked| ensures p(asked[i].item) == q(asked[i].item) {
      if q(asked[i].item) {
        var j :| 0 <= j < |asked| && p(asked[j].item) && cfg.keys.id(asked[j].item) == cfg.keys.id(asked[i].item);
      }
    }
    SumSame(asked, p, q);
    StreamIsExact(cfg, calls, true, q);
    forall i | 0 <= i < |stream| ensures p(stream[i].item) == q(stream[i].item) {
      StreamItemsAreBrought(cfg, calls, stream[i]);
      var k :| 0 <= k < |calls| && calls[k].key == stream[i].item;
      assert asked[k].item == stream[i].item;
    }
    SumSame(stream, p, q);
  }

  /** The report is exact for every selection `q` of its keys that equal brought keys render into or out of
      together: what it counts there is what was asked for the keys that render there. */
  lemma {:induction false} ReportSumIsExact<K(!new), C, F, D>(cfg: Config<K, C>, calls: seq<Call<K>>,
      stream: seq<Entry<K>>, render: K -> F, fid: F -> D, order: seq<D>, q: F -> bool)
    requires ConfigOk(cfg) && AllPositive(Asked(calls)) && ReadAs(cfg, calls, stream)
    requires RespectsOn(After(render, q), cfg.keys.id, Asked(calls))
    requires RespectsOn(q, fid, Mapped(stream, render)) && Enumerates(order, Report(stream, render, fid))
    ensures Sum(Slots(Report(stream, render, fid), order), q) == Sum(Asked(calls), After(render, q))
  {
    StreamPositive(cfg, calls);
    PositiveMeaning(stream);
    TallyConserves(Mapped(stream, render), fid, order, q);
    MappedSum(stream, render, q);
    StreamIsExactOn(cfg, calls, stream, After(render, q));
  }

  /** End to end for the report, key by key: when the brought keys of one class render alike, `d` is a key if
      and only if a call's key renders to it, and its count is what was asked for those keys together. */
  lemma {:induction false} ReportIsExact<K(!new), C, F, D>(cfg: Config<K, C>, calls: seq<Call<K>>,
      stream: seq<Entry<K>>, render: K -> F, fid: F -> D, d: D)
    requires ConfigOk(cfg) && AllPositive(Asked(calls)) && ReadAs(cfg, calls, stream)
    requires RendersAlike(Asked(calls), cfg.keys.id, render, fid)
    ensures var r := Report(stream, render, fid);
      && (d in r <==> exists i :: 0 <= i < |calls| && fid(render(calls[i].key)) == d)
      && (d in r ==> r[d].count == Sum(Asked(calls), After(render, OfClass(fid, d))))
  {
    var q := After(render, OfClass(fid, d));
    StreamPositive(cfg, calls);
    PositiveMeaning(stream);
    ReportMeaning(stream, render, fid, d);
    assert RespectsOn(q, cfg.keys.id, Asked(calls));
    StreamIsExactOn(cfg, calls, stream, q);
    SumPositive(stream, q);
    SumPositive(Asked(calls), q);
    assert Meets(stream, q) <==> Meets(Asked(calls), q);
    MeetsRendering(stream, render, fid, d);
    MeetsRendering(Asked(calls), render, fid, d);
    if i :| 0 <= i < |calls| && fid(render(calls[i].key)) == d {
      assert fid(render(Asked(calls)[i].item)) == d;
    }
    if i :| 0 <= i < |Asked(calls)| && fid(render(Asked(calls)[i].item)) == d {
      assert fid(render(calls[i].key)) == d;
    }
  }

  /** Every brought key's rendering is a key of the report. */
  ghost predicate AllShown<K, F, D>(calls: seq<Call<K>>, stream: seq<Entry<K>>, render: K -> F, fid: F -> D) {
    forall k :: 0 <= k < |calls| ==> fid(render(calls[k].key)) in Report(stream, render, fid)
  }

  /** A rendering the report shows is that of an entry read, of the class of the call that renders so. */
  lemma {:induction false} ShownBy<K(!new), C, F, D>(cfg: Config<K, C>, calls: seq<Call<K>>,
      stream: seq<Entry<K>>, render: K -> F, fid: F -> D, k: nat) returns (i: nat)
    requires ConfigOk(cfg) && AllPositive(Asked(calls)) && ReadAs(cfg, calls, stream) && k < |calls|
    requires KeepsApart(Asked(calls), cfg.keys.id, render, fid)
    requires fid(render(calls[k].key)) in Report(stream, render, fid)
    ensures i < |stream| && fid(render(stream[i].item)) == fid(render(calls[k].key))
    ensures cfg.keys.id(stream[i].item) == cfg.keys.id(calls[k].key)
  {
    StreamPositive(cfg, calls);
    PositiveMeaning(stream);
    ReportMeaning(stream, render, fid, fid(render(calls[k].key)));
    i :| 0 <= i < |stream| && fid(render(stream[i].item)) == fid(render(calls[k].key));
    StreamItemsAreBrought(cfg, calls, stream[i]);
    var n :| 0 <= n < |calls| && calls[n].key == stream[i].item;
    assert Asked(calls)[n].item == stream[i].item && Asked(calls)[k].item == calls[k].key;
  }

  /** After a run in which no key was evicted and came back, entries of equal keys have been merged: the report
      shows every brought key if and only if equal ones render alike. */
  lemma {:induction false} AllShownIff<K(!new), C, F, D>(cfg: Config<K, C>, calls: seq<Call<K>>,
      stream: seq<Entry<K>>, render: K -> F, fid: F -> D)
    requires ConfigOk(cfg) && AllPositive(Asked(calls)) && ReadAs(cfg, calls, stream) && NoneReturns(cfg, calls)
    requires KeepsApart(Asked(calls), cfg.keys.id, render, fid)
    ensures AllShown(calls, stream, render, fid) <==> RendersAlike(Asked(calls), cfg.keys.id, render, fid)
  {
    if RendersAlike(Asked(calls), cfg.keys.id, render, fid) {
      forall k | 0 <= k < |calls| ensures fid(render(calls[k].key)) in Report(stream, render, fid) {
        ReportIsExact(cfg, calls, stream, render, fid, fid(render(calls[k].key)));
      }
    }
    if AllShown(calls, stream, render, fid) {
      ReadOnceIff(cfg, calls);
      forall m, n | 0 <= m < |calls| && 0 <= n < |calls| && cfg.keys.id(calls[m].key) == cfg.keys.id(calls[n].key)
        ensures fid(render(calls[m].key)) == fid(render(calls[n].key))
      {
        var i := ShownBy(cfg, calls, stream, render, fid, m);
        var j := ShownBy(cfg, calls, stream, render, fid, n);
        assert i == j;
      }
      RendersAlikeByCalls(calls, cfg.keys.id, render, fid);
    }
  }

  lemma {:induction false} RendersAlikeByCalls<K, C, F, D>(
    calls: seq<Call<K>>, id: K -> C, render: K -> F, fid: F -> D)
    requires forall m, n :: 0 <= m < |calls| && 0 <= n < |calls| && id(calls[m].key) == id(calls[n].key) ==>
      fid(render(calls[m].key)) == fid(render(calls[n].key))
    ensures RendersAlike(Asked(calls), id, render, fid)
  {
    var es := Asked(calls);
    forall m, n | 0 <= m < |es| && 0 <= n < |es| && id(es[m].item) == id(es[n].item)
      ensures fid(render(es[m].item)) == fid(render(es[n].item))
    {
      assert es[m].item == calls[m].key && es[n].item == calls[n].key;
    }
  }

  /** Where no key came back, each key of the unresolved report is, in all its fields, the first brought of its
      class; and each key of the report is the rendering of such a first one. */
  lemma {:induction false} FirstIsShown<K(!new), C, F, D>(cfg: Config<K, C>, calls: seq<Call<K>>,
      stream: seq<Entry<K>>, render: K -> F, fid: F -> D, d: D) returns (k: nat)
    requires ConfigOk(cfg) && AllPositive(Asked(calls)) && ReadAs(cfg, calls, stream) && NoneReturns(cfg, calls)
    requires d in Report(stream, render, fid)
    ensures k < |calls| && IsFirstOfClass(cfg.keys.id, calls, k)
    ensures Report(stream, render, fid)[d].item == render(calls[k].key) && fid(render(calls[k].key)) == d
  {
    StreamPositive(cfg, calls);
    PositiveMeaning(stream);
    TalliedMeaning(Mapped(stream, render), fid, d);
    var i := TalliedKeepsFirst(Mapped(stream, render), fid, d);
    k := ReadFromFirstCall(cfg, calls, stream[i]);
  }

  lemma {:induction false} FirstIsKept<K(!new), C>(
    cfg: Config<K, C>, calls: seq<Call<K>>, stream: seq<Entry<K>>, c: C) returns (k: nat)
    requires ConfigOk(cfg) && AllPositive(Asked(calls)) && ReadAs(cfg, calls, stream) && NoneReturns(cfg, calls)
    requires c in UnresolvedReport(stream, cfg.keys.id)
    ensures k < |calls| && IsFirstOfClass(cfg.keys.id, calls, k)
    ensures cfg.keys.id(calls[k].key) == c && UnresolvedReport(stream, cfg.keys.id)[c].item == calls[k].key
  {
    k := FirstIsShown(cfg, calls, stream, Itself(), cfg.keys.id, c);
  }

  /** Two entries of one key class that render differently: one key of the unresolved report, two of the report,
      and none of its keys has the whole count. */
  lemma {:induction false} SplitKey<K, C, F, D>(
    stream: seq<Entry<K>>, id: K -> C, render: K -> F, fid: F -> D, i: nat, j: nat)
    requires i < |Positive(stream)| && j < |Positive(stream)|
    requires id(Positive(stream)[i].item) == id(Positive(stream)[j].item)
    requires fid(render(Positive(stream)[i].item)) != fid(render(Positive(stream)[j].item))
    ensures var es := Positive(stream);
      var r := Report(stream, render, fid);
      && id(es[i].item) in UnresolvedReport(stream, id)
      && fid(render(es[i].item)) in r && fid(render(es[j].item)) in r && |r| >= 2
      && !exists d :: WholeUnder(stream, id, render, fid, id(es[i].item), d)
  {
    var es := Positive(stream);
    UnresolvedIsTallied(stream, id);
    TalliedMeaning(es, id, id(es[i].item));
    var d, e := fid(render(es[i].item)), fid(render(es[j].item));
    ReportMeaning(stream, render, fid, d);
    ReportMeaning(stream, render, fid, e);
    SetAtLeastTwo(Report(stream, render, fid).Keys, d, e);
    SplitIff(stream, id, render, fid, id(es[i].item));
  }

  lemma {:induction false} SetAtLeastTwo<D>(s: set<D>, a: D, b: D)
    requires a in s && b in s && a != b
    ensures |s| >= 2
  {
    assert |s - {a}| == |s| - 1;
    assert b in s - {a};
  }

  // ---- The builder ----

  /** `m` groups the entries with a positive count by what `key` makes of them. */
  ghost predicate GroupsAt<K, F, D>(m: Tally<F, D>, es: seq<Entry<K>>, key: K -> F, fid: F -> D, d: D) {
    && (d in m <==> exists i :: 0 <= i < |es| && es[i].count > 0 && fid(key(es[i].item)) == d)
    && (d in m ==>
      && m[d].count == Sum(Positive(es), k => fid(key(k)) == d) && fid(m[d].item) == d
      && exists i :: 0 <= i < |es| && es[i].count > 0 && m[d].item == key(es[i].item))
  }

  /** The same with a post-processor `f` applied to every key that `render` makes. */
  ghost predicate ProcessesAt<K, F, D>(
    m: Tally<F, D>, es: seq<Entry<K>>, render: K -> F, f: F -> F, fid: F -> D, d: D)
  {
    && (d in m <==> exists i :: 0 <= i < |es| && es[i].count > 0 && fid(f(render(es[i].item))) == d)
    && (d in m ==>
      && m[d].count == Sum(Positive(es), k => fid(f(render(k))) == d) && fid(m[d].item) == d
      && exists i :: 0 <= i < |es| && es[i].count > 0 && m[d].item == f(render(es[i].item)))
  }

  lemma {:induction false} PositiveAt<K>(es: seq<Entry<K>>, n: nat) returns (i: nat)
    requires n < |Positive(es)|
    ensures i < |es| && es[i] == Positive(es)[n] && es[i].count > 0
  {
    PositiveExactly(es, Positive(es)[n]);
    i :| 0 <= i < |es| && es[i] == Positive(es)[n];
  }

  lemma {:induction false} ReportGroups<K, F, D>(es: seq<Entry<K>>, key: K -> F, fid: F -> D, d: D)
    ensures GroupsAt(Report(es, key, fid), es, key, fid, d)
  {
    var m, ps := Report(es, key, fid), Positive(es);
    ReportMeaning(es, key, fid, d);
    SumSame(ps, After(key, OfClass(fid, d)), k => fid(key(k)) == d);
    if i :| 0 <= i < |es| && es[i].count > 0 && fid(key(es[i].item)) == d {
      PositiveExactly(es, es[i]);
      var n :| 0 <= n < |ps| && ps[n] == es[i];
      assert fid(key(ps[n].item)) == d;
    }
    if d in m {
      var n := TalliedKeepsFirst(Mapped(ps, key), fid, d);
      var i := PositiveAt(es, n);
      assert m[d].item == key(es[i].item);
    }
  }

  lemma {:induction false} ReportProcesses<K, F, D>(
    es: seq<Entry<K>>, render: K -> F, f: F -> F, fid: F -> D, d: D)
    ensures ProcessesAt(Report(es, Composed(render, f), fid), es, render, f, fid, d)
  {
    ReportGroups(es, Composed(render, f), fid, d);
    SumSame(Positive(es), k => fid(Composed(render, f)(k)) == d, k => fid(f(render(k))) == d);
  }

  /** Why building failed: the profiler could not be created, or the spill log could not be read. */
  datatype BuildError = CreatingError | IoError

  class ReportBuilder<K, C(==), F, D(==)> {
    const profiler: Option<Collector<K, C>>
    const render: K -> F
    const fid: F -> D
    var postProcessor: Option<F -> F>

    constructor (profiler: Option<Collector<K, C>>, render: K -> F, fid: F -> D)
      ensures this.profiler == profiler && this.render == render && this.fid == fid && postProcessor == None
    {
      this.profiler, this.render, this.fid, postProcessor := profiler, render, fid, None;
    }

    method FramesPostProcessor(f: F -> F)
      modifies this
      ensures postProcessor == Some(f)
    {
      postProcessor := Some(f);
    }

    /** The key `build` makes of an entry's item. */
    function KeyOf(): K -> F
      reads this
    {
      match postProcessor
      case Some(f) => Composed(render, f)
      case None => render
    }

    method BuildUnresolved(reopen: bool) returns (r: Result<Tally<K, C>, BuildError>)
      requires profiler.Some? ==> profiler.value.Valid()
      ensures profiler.None? ==> r == Err(CreatingError)
      ensures profiler.Some? ==>
        var c := profiler.value;
        match Stream(c.Contents(), c.cfg, reopen)
        case Ok(es) => r == Ok(UnresolvedReport(es, c.cfg.keys.id))
        case Err(_) => r == Err(IoError)
    {
      if profiler.None? {
        return Err(CreatingError);
      }
      var es := profiler.value.TryIter(reopen);
      if es.Err? {
        return Err(IoError);
      }
      var m := Tabulate(es.value, Itself(), profiler.value.cfg.keys.id);
      r := Ok(m);
    }

    method Build(reopen: bool) returns (r: Result<Tally<F, D>, BuildError>)
      requires profiler.Some? ==> profiler.value.Valid()
      ensures profiler.None? ==> r == Err(CreatingError)
      ensures profiler.Some? ==>
        var c := profiler.value;
        match Stream(c.Contents(), c.cfg, reopen)
        case Ok(es) => r == Ok(Report(es, KeyOf(), fid))
        case Err(_) => r == Err(IoError)
      ensures profiler.Some? && r.Ok? ==>
        var es := Stream(profiler.value.Contents(), profiler.value.cfg, reopen).value;
        match postProcessor
        case Some(f) => forall d :: ProcessesAt(r.value, es, render, f, fid, d)
        case None => forall d :: GroupsAt(r.value, es, render, fid, d)
    {
      if profiler.None? {
        return Err(CreatingError);
      }
      var es := profiler.value.TryIter(reopen);
      if es.Err? {
        return Err(IoError);
      }
      var m := Tabulate(es.value, KeyOf(), fid);
      forall d ensures GroupsAt(m, es.value, KeyOf(), fid, d) {
        ReportGroups(es.value, KeyOf(), fid, d);
      }
      match postProcessor {
        case Some(f) =>
          forall d ensures ProcessesAt(m, es.value, render, f, fid, d) {
            ReportProcesses(es.value, render, f, fid, d);
          }
        case None =>
      }
      r := Ok(m);
    }
  }

  function Composed<K, F>(render: K -> F, f: F -> F): K -> F { k => f(render(k)) }
}
