/** From accepted samples to the exported profile: the modules put together. */
module EndToEnd {
  import opened Entries
  import opened HashCounters
  import opened SpillLogs
  import opened Collectors
  import opened Frames
  import opened Reports
  import Pigeonholes
  import Pprof
  import Protocol

  /** The collector as the profiler uses it: stacks as keys, under any hasher. */
  function StackConfig<H>(h: Hasher<H>, buckets: nat, lay: Layout, default: UnresolvedFrames)
    : Config<UnresolvedFrames, StackId>
  {
    Config(StackKeys(h, buckets), lay, default)
  }

  lemma {:induction false} StackConfigOk<H>(h: Hasher<H>, buckets: nat, lay: Layout, default: UnresolvedFrames)
    requires buckets > 0 && LayoutOk(lay)
    ensures ConfigOk(StackConfig(h, buckets, lay, default))
  {
    StackKeysLawful(h, buckets);
  }

  ghost predicate OneEach<K>(calls: seq<Call<K>>) {
    forall i :: 0 <= i < |calls| ==> calls[i].count == 1
  }

  /** How many of the calls carry a stack equal to `u`, by the stacks' own equality. */
  function Occurrences(calls: seq<Call<UnresolvedFrames>>, u: UnresolvedFrames): nat {
    if |calls| == 0 then 0
    else Occurrences(calls[..|calls| - 1], u) + (if SameStack(calls[|calls| - 1].key, u) then 1 else 0)
  }

  lemma {:induction false} SumOfOnes<K>(calls: seq<Call<K>>)
    requires OneEach(calls)
    ensures Sum(Asked(calls), All()) == |calls| && AllPositive(Asked(calls))
  {
    if |calls| > 0 {
      AskedInit(calls);
      SumOfOnes(calls[..|calls| - 1]);
    }
  }

  lemma {:induction false} SumOfStack(calls: seq<Call<UnresolvedFrames>>, u: UnresolvedFrames)
    requires OneEach(calls)
    ensures Sum(Asked(calls), OfClass(IdOfStack, IdOfStack(u))) == Occurrences(calls, u)
  {
    if |calls| > 0 {
      AskedInit(calls);
      SumOfStack(calls[..|calls| - 1], u);
      SameStackIff(calls[|calls| - 1].key, u);
    }
  }

  /** In every reachable state, unless a write to the spill file failed: the unresolved report has a key for a
      stack exactly when an equal stack was accepted since the collector was installed, and its count is the
      number of times that happened. */
  lemma {:induction false} StackReportIsExact<H>(h: Hasher<H>, buckets: nat, lay: Layout, default: UnresolvedFrames,
      init: Protocol.System<UnresolvedFrames>, events: seq<Protocol.Event<UnresolvedFrames>>,
      s: Protocol.System<UnresolvedFrames>, u: UnresolvedFrames)
    requires buckets > 0 && LayoutOk(lay) && Protocol.Initial(init, StackConfig(h, buckets, lay, default))
    requires Protocol.Exec(init, StackConfig(h, buckets, lay, default), events) == Some(s)
    requires !Run(StackConfig(h, buckets, lay, default), s.accepted).failed
    ensures var cfg := StackConfig(h, buckets, lay, default);
      && StateOk(s.world.prof.data, cfg) && Stream(s.world.prof.data, cfg, true).Ok?
      && var r := UnresolvedReport(Stream(s.world.prof.data, cfg, true).value, cfg.keys.id);
      && (IdOfStack(u) in r <==> Occurrences(s.accepted, u) > 0)
      && (IdOfStack(u) in r ==>
        r[IdOfStack(u)].count == Occurrences(s.accepted, u) && SameStack(r[IdOfStack(u)].item, u))
  {
    var cfg := StackConfig(h, buckets, lay, default);
    StackConfigOk(h, buckets, lay, default);
    Protocol.InitialInv(init, cfg);
    Protocol.InvKept(init, cfg, events, init.world.sigprof);
    ExactForStack(cfg, s.accepted, u);
  }

  lemma {:induction false} ExactForStack(
    cfg: Config<UnresolvedFrames, StackId>, calls: seq<Call<UnresolvedFrames>>, u: UnresolvedFrames)
    requires ConfigOk(cfg) && cfg.keys.id == IdOfStack && OneEach(calls) && !Run(cfg, calls).failed
    ensures StateOk(Run(cfg, calls).state, cfg) && Stream(Run(cfg, calls).state, cfg, true).Ok?
    ensures var r := UnresolvedReport(Stream(Run(cfg, calls).state, cfg, true).value, cfg.keys.id);
      && (IdOfStack(u) in r <==> Occurrences(calls, u) > 0)
      && (IdOfStack(u) in r ==>
        r[IdOfStack(u)].count == Occurrences(calls, u) && SameStack(r[IdOfStack(u)].item, u))
  {
    SumOfOnes(calls);
    SumOfStack(calls, u);
    UnresolvedReportIsExact(cfg, calls, IdOfStack(u));
    SumPositive(Asked(calls), OfClass(IdOfStack, IdOfStack(u)));
    var r := UnresolvedReport(Stream(Run(cfg, calls).state, cfg, true).value, cfg.keys.id);
    if IdOfStack(u) in r {
      SameStackIff(r[IdOfStack(u)].item, u);
    }
  }

  /** `Frames::from`. */
  function Rendering(r: Resolver, text: Text): UnresolvedFrames -> Frames {
    u => Rendered(u, r, text)
  }

  /** A post-processor that drops what stack equality does not look at. */
  function Erase(): Frames -> Frames {
    (f: Frames) => f.(threadName := "", timestamp := 0)
  }

  /** What a builder with that post-processor makes of a stack. */
  function Erasing(r: Resolver, text: Text): UnresolvedFrames -> Frames {
    Composed(Rendering(r, text), Erase())
  }

  /** The entries of equal stacks show the same names. */
  ghost predicate NamesAgree(es: seq<Entry<UnresolvedFrames>>, r: Resolver, text: Text) {
    forall i, j :: 0 <= i < |es| && 0 <= j < |es| && IdOfStack(es[i].item) == IdOfStack(es[j].item) ==>
      ShownNames(es[i].item, r, text) == ShownNames(es[j].item, r, text)
  }

  /** They do, whatever is read, where a frame's names depend on its function alone. */
  lemma {:induction false} NamesAgreeByFunction(es: seq<Entry<UnresolvedFrames>>, r: Resolver, text: Text)
    requires NamesByFunction(r)
    ensures NamesAgree(es, r, text)
  {
    forall i, j | 0 <= i < |es| && 0 <= j < |es| && IdOfStack(es[i].item) == IdOfStack(es[j].item)
      ensures ShownNames(es[i].item, r, text) == ShownNames(es[j].item, r, text)
    {
      SameStackIff(es[i].item, es[j].item);
      EqualStacksShowEqualNames(es[i].item, es[j].item, r, text);
    }
  }

  lemma {:induction false} ErasingShowsNames(u: UnresolvedFrames, r: Resolver, text: Text)
    ensures IdOfFrames(Erasing(r, text)(u)) == FramesId(ShownNames(u, r, text), "", u.threadId, 0)
  {
  }

  /** With such a post-processor equal stacks render alike if and only if they show the same names. */
  lemma {:induction false} ErasedAlikeIff(es: seq<Entry<UnresolvedFrames>>, r: Resolver, text: Text)
    ensures RendersAlike(es, IdOfStack, Erasing(r, text), IdOfFrames) <==> NamesAgree(es, r, text)
  {
    forall i, j | 0 <= i < |es| && 0 <= j < |es| && IdOfStack(es[i].item) == IdOfStack(es[j].item)
      ensures IdOfFrames(Erasing(r, text)(es[i].item)) == IdOfFrames(Erasing(r, text)(es[j].item))
        <==> ShownNames(es[i].item, r, text) == ShownNames(es[j].item, r, text)
    {
      ErasingShowsNames(es[i].item, r, text);
      ErasingShowsNames(es[j].item, r, text);
    }
  }

  /** The report is then the image of the unresolved report: the counts of the stacks that render alike are
      summed, and nothing else happens. */
  lemma {:induction false} ErasedReportIsImage(stream: seq<Entry<UnresolvedFrames>>, r: Resolver, text: Text,
      order: seq<StackId>, d: FramesId)
    requires NamesAgree(Positive(stream), r, text)
    requires Enumerates(order, UnresolvedReport(stream, IdOfStack))
    ensures ImageAt(stream, IdOfStack, Erasing(r, text), IdOfFrames, order, d)
  {
    ErasedAlikeIff(Positive(stream), r, text);
    ReportIsImage(stream, IdOfStack, Erasing(r, text), IdOfFrames, order, d);
  }

  /** Such a report, made by the builder. */
  method BuildErased(collector: Collector<UnresolvedFrames, StackId>, r: Resolver, text: Text, reopen: bool)
    returns (report: Result<Tally<Frames, FramesId>, BuildError>)
    requires collector.Valid() && collector.cfg.keys.id == IdOfStack
    ensures match Stream(collector.Contents(), collector.cfg, reopen)
      case Err(_) => report == Err(IoError)
      case Ok(stream) =>
        && report == Ok(Report(stream, Erasing(r, text), IdOfFrames))
        && (NamesAgree(Positive(stream), r, text) ==>
          forall order, d | Enumerates(order, UnresolvedReport(stream, IdOfStack)) ::
            ImageAt(stream, IdOfStack, Erasing(r, text), IdOfFrames, order, d))
  {
    var builder := new ReportBuilder(Some(collector), Rendering(r, text), IdOfFrames);
    builder.FramesPostProcessor(Erase());
    report := builder.Build(reopen);
    ghost var read := Stream(collector.Contents(), collector.cfg, reopen);
    if read.Ok? && NamesAgree(Positive(read.value), r, text) {
      forall order, d | Enumerates(order, UnresolvedReport(read.value, IdOfStack))
        ensures ImageAt(read.value, IdOfStack, Erasing(r, text), IdOfFrames, order, d)
      {
        ErasedReportIsImage(read.value, r, text, order, d);
      }
    }
  }

  // ---- The report without a post-processor: it shows each stack's time ----

  /** Stacks of different times render to different keys. */
  lemma {:induction false} TimesRenderApart(u: UnresolvedFrames, v: UnresolvedFrames, r: Resolver, text: Text)
    requires u.timestamp != v.timestamp
    ensures IdOfFrames(Rendering(r, text)(u)) != IdOfFrames(Rendering(r, text)(v))
  {
    assert IdOfFrames(Rendered(u, r, text)).timestamp != IdOfFrames(Rendered(v, r, text)).timestamp;
  }

  /** The entries read of class `c` show the same names, one decoded thread name and one time. */
  ghost predicate ShowsOne(es: seq<Entry<UnresolvedFrames>>, r: Resolver, text: Text, c: StackId) {
    forall i, j :: 0 <= i < |es| && 0 <= j < |es| && IdOfStack(es[i].item) == c && IdOfStack(es[j].item) == c ==>
      ShowSame(r, text, es[i].item, es[j].item)
  }

  /** A stack's count is found whole under one key of the report if and only if the entries read of it show the
      same names, one thread name and one time. */
  lemma {:induction false} StackStaysWholeIff(
    stream: seq<Entry<UnresolvedFrames>>, r: Resolver, text: Text, c: StackId)
    requires c in UnresolvedReport(stream, IdOfStack)
    ensures (exists d :: WholeUnder(stream, IdOfStack, Rendering(r, text), IdOfFrames, c, d))
      <==> ShowsOne(Positive(stream), r, text, c)
  {
    var es := Positive(stream);
    SplitIff(stream, IdOfStack, Rendering(r, text), IdOfFrames, c);
    forall i, j | 0 <= i < |es| && 0 <= j < |es| && IdOfStack(es[i].item) == c && IdOfStack(es[j].item) == c
      ensures IdOfFrames(Rendering(r, text)(es[i].item)) == IdOfFrames(Rendering(r, text)(es[j].item))
        <==> ShowSame(r, text, es[i].item, es[j].item)
    {
      SameStackIff(es[i].item, es[j].item);
      EqualStacksRenderAlikeIff(es[i].item, es[j].item, r, text);
      SameFramesIff(Rendered(es[i].item, r, text), Rendered(es[j].item, r, text));
    }
  }

  /** One stack read with two times: one key of the unresolved report, one for each time of the report. */
  lemma {:induction false} TwoTimesSplit(stream: seq<Entry<UnresolvedFrames>>, u: UnresolvedFrames,
      v: UnresolvedFrames, r: Resolver, text: Text)
    requires Positive(stream) == stream && Entry(u, 1) in stream && Entry(v, 1) in stream
    requires IdOfStack(u) == IdOfStack(v) && u.timestamp != v.timestamp
    ensures AllPositive(stream) && IdOfStack(v) in UnresolvedReport(stream, IdOfStack)
    ensures var report := Report(stream, Rendering(r, text), IdOfFrames);
      && IdOfFrames(Rendered(u, r, text)) in report && IdOfFrames(Rendered(v, r, text)) in report
      && IdOfFrames(Rendered(u, r, text)) != IdOfFrames(Rendered(v, r, text))
    ensures !exists d :: WholeUnder(stream, IdOfStack, Rendering(r, text), IdOfFrames, IdOfStack(v), d)
  {
    PositiveMeaning(stream);
    TimesRenderApart(u, v, r, text);
    var i :| 0 <= i < |stream| && stream[i] == Entry(u, 1);
    var j :| 0 <= j < |stream| && stream[j] == Entry(v, 1);
    SplitKey(stream, IdOfStack, Rendering(r, text), IdOfFrames, i, j);
  }

  lemma {:induction false} OnceEachIsOneEach<K>(ks: seq<K>)
    ensures OneEach(OnceEach(ks))
  {
  }

  lemma {:induction false} ReadPositive<K(!new), C>(cfg: Config<K, C>, calls: seq<Call<K>>, stream: seq<Entry<K>>)
    requires ConfigOk(cfg) && OneEach(calls) && ReadAs(cfg, calls, stream)
    ensures Positive(stream) == stream
  {
    SumOfOnes(calls);
    StreamPositive(cfg, calls);
    PositiveMeaning(stream);
  }

  /** Five unequal stacks of one bucket, then the first again at another time: it had been evicted by the fifth,
      so it is read twice. The unresolved report has one key for it; the report has one for each time, and none
      of its keys counts the whole stack. */
  lemma {:induction false} ReturningStackSplits<H>(
    h: Hasher<H>, buckets: nat, lay: Layout, default: UnresolvedFrames,
    ks: seq<UnresolvedFrames>, again: UnresolvedFrames, s: nat, r: Resolver, text: Text)
    returns (stream: seq<Entry<UnresolvedFrames>>)
    requires buckets > s && LayoutOk(lay) && |ks| == 5
    requires forall i :: 0 <= i < 5 ==> HashOfStack(h)(ks[i]) % buckets == s
    requires forall i, j :: 0 <= i < j < 5 ==> IdOfStack(ks[i]) != IdOfStack(ks[j])
    requires IdOfStack(again) == IdOfStack(ks[0]) && again.timestamp != ks[0].timestamp
    ensures ReadAs(StackConfig(h, buckets, lay, default), OnceEach(ks + [again]), stream)
    ensures Entry(ks[0], 1) in stream && Entry(again, 1) in stream && AllPositive(stream)
    ensures IdOfStack(again) in UnresolvedReport(stream, IdOfStack)
    ensures var report := Report(stream, Rendering(r, text), IdOfFrames);
      && IdOfFrames(Rendered(ks[0], r, text)) in report && IdOfFrames(Rendered(again, r, text)) in report
      && IdOfFrames(Rendered(ks[0], r, text)) != IdOfFrames(Rendered(again, r, text))
    ensures !exists d :: WholeUnder(stream, IdOfStack, Rendering(r, text), IdOfFrames, IdOfStack(again), d)
  {
    var cfg := StackConfig(h, buckets, lay, default);
    StackConfigOk(h, buckets, lay, default);
    assert forall i :: 0 <= i < 5 ==> Slot(cfg.keys, ks[i]) == s;
    stream := ReturningKeyIsReadTwice(cfg, ks, again, s);
    OnceEachIsOneEach(ks + [again]);
    ReadPositive(cfg, OnceEach(ks + [again]), stream);
    TwoTimesSplit(stream, ks[0], again, r, text);
  }

  /** A stack without frames of thread `thread`, taken at `time`. */
  function Bare(thread: nat, time: int): UnresolvedFrames {
    UnresolvedFrames([], seq(MAX_THREAD_NAME, _ => 0), 0, thread, time)
  }

  function BareSlot<H>(h: Hasher<H>, buckets: nat): nat -> nat
    requires buckets > 0
  {
    (t: nat) => HashOfStack(h)(Bare(t, 0)) % buckets
  }

  /** Under every hash, among as many threads as fill a table and one more, five share a bucket. */
  lemma {:induction false} FiveOfOneBucket<H>(h: Hasher<H>, buckets: nat) returns (row: seq<nat>, s: nat)
    requires buckets > 0
    ensures s < buckets && |row| == 5 && forall i :: 0 <= i < 5 ==> HashOfStack(h)(Bare(row[i], 0)) % buckets == s
    ensures forall i, j :: 0 <= i < j < 5 ==> row[i] != row[j]
  {
    var ts := Pigeonholes.FirstNumbers(4 * buckets + 1);
    var five;
    five, s := Pigeonholes.FiveShare(ts, BareSlot(h, buckets), buckets);
    row := Pigeonholes.LaidOut(five);
    forall i | 0 <= i < 5 ensures HashOfStack(h)(Bare(row[i], 0)) % buckets == s {
      assert BareSlot(h, buckets)(row[i]) == s;
    }
  }

  /** Stacks without frames, of these threads, at time 0. */
  function BareRow(row: seq<nat>): seq<UnresolvedFrames> {
    seq(|row|, i requires 0 <= i < |row| => Bare(row[i], 0))
  }

  lemma {:induction false} BareRowUnequal(row: seq<nat>, i: nat, j: nat)
    requires i < |row| && j < |row| && row[i] != row[j]
    ensures IdOfStack(BareRow(row)[i]) != IdOfStack(BareRow(row)[j])
  {
    assert IdOfStack(BareRow(row)[i]).threadId == row[i] && IdOfStack(BareRow(row)[j]).threadId == row[j];
  }

  /** Stacks without frames are told apart by their threads, also once symbolized. */
  lemma {:induction false} BareStacksKeepApart(cfg: Config<UnresolvedFrames, StackId>,
      ks: seq<UnresolvedFrames>, stream: seq<Entry<UnresolvedFrames>>, r: Resolver, text: Text)
    requires ConfigOk(cfg) && ReadAs(cfg, OnceEach(ks), stream)
    requires forall i :: 0 <= i < |ks| ==> ks[i].frames == []
    ensures KeepsApart(stream, IdOfStack, Rendering(r, text), IdOfFrames)
  {
    var calls := OnceEach(ks);
    forall i | 0 <= i < |stream| ensures stream[i].item.frames == [] {
      StreamItemsAreBrought(cfg, calls, stream[i]);
      var k :| 0 <= k < |calls| && calls[k].key == stream[i].item;
      assert ks[k].frames == [];
    }
    forall i, j | 0 <= i < |stream| && 0 <= j < |stream|
      && IdOfFrames(Rendering(r, text)(stream[i].item)) == IdOfFrames(Rendering(r, text)(stream[j].item))
      ensures IdOfStack(stream[i].item) == IdOfStack(stream[j].item)
    {
      assert IdOfFrames(Rendered(stream[i].item, r, text)).threadId == stream[i].item.threadId;
      assert Addresses(stream[i].item.frames) == Addresses(stream[j].item.frames);
    }
  }

  lemma {:induction false} TwoTimesAreNoImage(stream: seq<Entry<UnresolvedFrames>>, u: UnresolvedFrames,
      v: UnresolvedFrames, r: Resolver, text: Text, order: seq<StackId>)
    requires Positive(stream) == stream && Entry(u, 1) in stream && Entry(v, 1) in stream
    requires IdOfStack(u) == IdOfStack(v) && u.timestamp != v.timestamp
    requires KeepsApart(stream, IdOfStack, Rendering(r, text), IdOfFrames)
    requires Enumerates(order, UnresolvedReport(stream, IdOfStack))
    ensures !forall d :: ImageAt(stream, IdOfStack, Rendering(r, text), IdOfFrames, order, d)
  {
    TimesRenderApart(u, v, r, text);
    var i :| 0 <= i < |stream| && stream[i] == Entry(u, 1);
    var j :| 0 <= j < |stream| && stream[j] == Entry(v, 1);
    assert !RendersAlike(stream, IdOfStack, Rendering(r, text), IdOfFrames);
    ImageIff(stream, IdOfStack, Rendering(r, text), IdOfFrames, order);
  }

  /** For every table and every hash there are six samples after which the report is not the image of the
      unresolved report: five threads of one bucket, and the first of them again later. */
  lemma {:induction false} DefaultReportIsNoImage<H>(
    h: Hasher<H>, buckets: nat, lay: Layout, default: UnresolvedFrames, r: Resolver, text: Text)
    returns (ks: seq<UnresolvedFrames>, stream: seq<Entry<UnresolvedFrames>>)
    requires buckets > 0 && LayoutOk(lay)
    ensures |ks| == 6 && ReadAs(StackConfig(h, buckets, lay, default), OnceEach(ks), stream)
    ensures forall order | Enumerates(order, UnresolvedReport(stream, IdOfStack)) ::
      !forall d :: ImageAt(stream, IdOfStack, Rendering(r, text), IdOfFrames, order, d)
  {
    var row, s := FiveOfOneBucket(h, buckets);
    var five, again := BareRow(row), Bare(row[0], 1);
    forall i, j | 0 <= i < j < 5 ensures IdOfStack(five[i]) != IdOfStack(five[j]) {
      BareRowUnequal(row, i, j);
    }
    assert IdOfStack(again) == IdOfStack(five[0]);
    ks := five + [again];
    stream := ReturningStackSplits(h, buckets, lay, default, five, again, s, r, text);
    StackConfigOk(h, buckets, lay, default);
    BareStacksKeepApart(StackConfig(h, buckets, lay, default), ks, stream, r, text);
    PositiveMeaning(stream);
    forall order | Enumerates(order, UnresolvedReport(stream, IdOfStack))
      ensures !forall d :: ImageAt(stream, IdOfStack, Rendering(r, text), IdOfFrames, order, d)
    {
      TwoTimesAreNoImage(stream, five[0], again, r, text, order);
    }
  }

  /** In every reachable state, unless a write to the spill file failed or some stack was evicted and came back,
      the plain report is the image of the unresolved report. */
  lemma {:induction false} DefaultReportIsImage<H>(h: Hasher<H>, buckets: nat, lay: Layout, default: UnresolvedFrames,
      init: Protocol.System<UnresolvedFrames>, events: seq<Protocol.Event<UnresolvedFrames>>,
      s: Protocol.System<UnresolvedFrames>, stream: seq<Entry<UnresolvedFrames>>, r: Resolver, text: Text,
      order: seq<StackId>, d: FramesId)
    requires buckets > 0 && LayoutOk(lay) && Protocol.Initial(init, StackConfig(h, buckets, lay, default))
    requires Protocol.Exec(init, StackConfig(h, buckets, lay, default), events) == Some(s)
    requires ReadAs(StackConfig(h, buckets, lay, default), s.accepted, stream)
    requires NoneReturns(StackConfig(h, buckets, lay, default), s.accepted)
    requires Enumerates(order, UnresolvedReport(stream, IdOfStack))
    ensures StateOk(s.world.prof.data, StackConfig(h, buckets, lay, default))
    ensures Stream(s.world.prof.data, StackConfig(h, buckets, lay, default), true) == Ok(stream)
    ensures ImageAt(stream, IdOfStack, Rendering(r, text), IdOfFrames, order, d)
  {
    var cfg := StackConfig(h, buckets, lay, default);
    StackConfigOk(h, buckets, lay, default);
    Protocol.InitialInv(init, cfg);
    Protocol.InvKept(init, cfg, events, init.world.sigprof);
    NoneReturnsIsImage(cfg, s.accepted, stream, Rendering(r, text), IdOfFrames, order, d);
  }

  /** Every key of a report is, in all its fields, the rendering of one accepted sample: its own name and time,
      not a mixture. */
  lemma {:induction false} ReportKeysAreAccepted<K(!new), C, F, D>(
    cfg: Config<K, C>, calls: seq<Call<K>>, stream: seq<Entry<K>>, render: K -> F, fid: F -> D, d: D)
    requires ConfigOk(cfg) && OneEach(calls) && ReadAs(cfg, calls, stream)
    requires d in Report(stream, render, fid)
    ensures fid(Report(stream, render, fid)[d].item) == d
    ensures exists i :: 0 <= i < |calls| && Report(stream, render, fid)[d].item == render(calls[i].key)
  {
    ReadPositive(cfg, calls, stream);
    TalliedMeaning(Mapped(stream, render), fid, d);
    var k := TalliedKeepsFirst(Mapped(stream, render), fid, d);
    StreamItemsAreBrought(cfg, calls, stream[k]);
  }

  /** The sums of `value[0]` and of `value[1]` over a profile's samples. */
  function TotalValue(samples: seq<Pprof.Sample>, k: nat): int {
    if |samples| == 0 then 0
    else
      var last := samples[|samples| - 1];
      TotalValue(samples[..|samples| - 1], k) + (if k < |last.values| then last.values[k] else 0)
  }

  /** The samples carry the counts and times of the report's entries, as `pprof` promises. */
  ghost predicate Carries<F>(samples: seq<Pprof.Sample>, es: seq<Entry<F>>, frequency: int)
    requires frequency != 0
  {
    && |samples| == |es|
    && forall i :: 0 <= i < |es| ==> samples[i].values == [es[i].count, Pprof.ValueOf(es[i].count, frequency)]
  }

  lemma {:induction false} TotalsCarried<F>(samples: seq<Pprof.Sample>, es: seq<Entry<F>>, frequency: int)
    requires frequency != 0 && Carries(samples, es, frequency)
    ensures TotalValue(samples, 0) == Sum(es, All())
    ensures TotalValue(samples, 1) == Pprof.SumValues(es, frequency)
  {
    if |es| > 0 {
      TotalsCarried(samples[..|es| - 1], es[..|es| - 1], frequency);
    }
  }

  /** What a report holds, in whatever order it is read: as much as the collector's entries, each slot positive. */
  lemma {:induction false} ReportHolds<K(!new), F(!new), D>(
    stream: seq<Entry<K>>, render: K -> F, fid: F -> D, order: seq<D>)
    requires AllPositive(stream) && Enumerates(order, Report(stream, render, fid))
    ensures var slots := Slots(Report(stream, render, fid), order);
      Sum(slots, All()) == Sum(stream, All()) && AllPositive(slots)
  {
    var es := Mapped(stream, render);
    PositiveMeaning(stream);
    TallyConserves(es, fid, order, All());
    MappedSum(stream, render, All<F>());
    SumSame(stream, After(render, All()), All());
    var slots := Slots(Report(stream, render, fid), order);
    forall i | 0 <= i < |slots| ensures slots[i].count > 0 {
      TalliedMeaning(es, fid, order[i]);
      SumPositive(es, OfClass(fid, order[i]));
    }
  }

  /** What the samples of a profile add up to, when the entries of the report add up to `total`. */
  ghost predicate AddsUp(samples: seq<Pprof.Sample>, total: int, frequency: nat) {
    && TotalValue(samples, 0) == total
    && frequency * TotalValue(samples, 1) <= total * Pprof.SECOND
    && (samples != [] ==> total * Pprof.SECOND < frequency * (TotalValue(samples, 1) + |samples|))
    && (total <= Pprof.I32_MAX ==> forall i :: 0 <= i < |samples| ==> FitsI64(samples[i], total))
  }

  predicate FitsI64(s: Pprof.Sample, total: int) {
    |s.values| == 2 && 0 < s.values[0] <= total && s.values[0] * Pprof.SECOND <= Pprof.I64_MAX
  }

  lemma {:induction false} CarriedAddsUp<F>(samples: seq<Pprof.Sample>, es: seq<Entry<F>>, frequency: nat)
    requires frequency > 0 && AllPositive(es) && Carries(samples, es, frequency)
    ensures AddsUp(samples, Sum(es, All()), frequency)
  {
    TotalsCarried(samples, es, frequency);
    Pprof.SumValuesBounds(es, frequency);
    if Sum(es, All()) <= Pprof.I32_MAX {
      forall i | 0 <= i < |samples| ensures FitsI64(samples[i], Sum(es, All())) {
        Pprof.NoOverflow(es, i);
      }
    }
  }

  lemma {:induction false} StreamAddsUp<K(!new), F(!new), D>(stream: seq<Entry<K>>, render: K -> F, fid: F -> D,
      order: seq<D>, samples: seq<Pprof.Sample>, frequency: nat)
    requires frequency > 0 && AllPositive(stream) && Enumerates(order, Report(stream, render, fid))
    requires Carries(samples, Slots(Report(stream, render, fid), order), frequency)
    ensures AddsUp(samples, Sum(stream, All()), frequency)
  {
    ReportHolds(stream, render, fid, order);
    CarriedAddsUp(samples, Slots(Report(stream, render, fid), order), frequency);
  }

  lemma {:induction false} RunAddsUp<K(!new), C, F(!new), D>(
    cfg: Config<K, C>, calls: seq<Call<K>>, stream: seq<Entry<K>>,
    render: K -> F, fid: F -> D, order: seq<D>, samples: seq<Pprof.Sample>, frequency: nat)
    requires ConfigOk(cfg) && frequency > 0 && OneEach(calls) && ReadAs(cfg, calls, stream)
    requires Enumerates(order, Report(stream, render, fid))
    requires Carries(samples, Slots(Report(stream, render, fid), order), frequency)
    ensures AddsUp(samples, |calls|, frequency)
  {
    SumOfOnes(calls);
    StreamIsExact(cfg, calls, true, All());
    StreamPositive(cfg, calls);
    StreamAddsUp(stream, render, fid, order, samples, frequency);
  }

  /** Conservation from the handler to the profile. In every reachable state `s`, unless a write to the spill
      file failed: the sum of `value[0]` over the exported samples is the number of samples accepted since the
      collector was installed; the summed times fall short of it by less than a nanosecond per sample; while it
      fits an i32 no product overflows; and it is `sample_counter`, if and only if no stop() failed to create the
      next collector while samples were held. */
  lemma {:induction false} ProfileConserves<K(!new), C, F(!new), D>(
    init: Protocol.System<K>, cfg: Config<K, C>, events: seq<Protocol.Event<K>>, s: Protocol.System<K>,
    stream: seq<Entry<K>>, render: K -> F, fid: F -> D, order: seq<D>, samples: seq<Pprof.Sample>, frequency: nat)
    requires ConfigOk(cfg) && frequency > 0
    requires Protocol.Initial(init, cfg) && Protocol.Exec(init, cfg, events) == Some(s)
    requires StateOk(s.world.prof.data, cfg) && Stream(s.world.prof.data, cfg, true) == Ok(stream)
    requires Enumerates(order, Report(stream, render, fid))
    requires Carries(samples, Slots(Report(stream, render, fid), order), frequency)
    ensures AddsUp(samples, |s.accepted|, frequency)
    ensures s.world.prof.sampleCounter == TotalValue(samples, 0) <==> !Protocol.Forgets(init, cfg, events)
  {
    Protocol.InitialInv(init, cfg);
    Protocol.InvKept(init, cfg, events, init.world.sigprof);
    Protocol.CounterIsAccepted(init, cfg, events);
    StreamIsExact(cfg, s.accepted, true, All());
    RunAddsUp(cfg, s.accepted, stream, render, fid, order, samples, frequency);
  }

  // ---- Every accepted sample in the exported profile ----

  lemma {:induction false} OnesCounted<K>(calls: seq<Call<K>>, p: K -> bool)
    requires OneEach(calls)
    ensures Sum(Asked(calls), p) == Count(Asked(calls), p)
  {
    if |calls| > 0 {
      AskedInit(calls);
      OnesCounted(calls[..|calls| - 1], p);
    }
  }

  /** How many of the calls carry a key that renders to `d`. */
  function Renderings<K>(calls: seq<Call<K>>, render: K -> Frames, d: FramesId): nat {
    Count(Asked(calls), After(render, OfClass(IdOfFrames, d)))
  }

  /** Sample `i` of the profile counts what renders to its key, and shows it. */
  ghost predicate CountsAndShows<K>(p: Pprof.Profile, i: nat, d: FramesId, calls: seq<Call<K>>,
      render: K -> Frames, text: Text)
    requires i < |p.samples|
  {
    && |p.samples[i].values| == 2 && p.samples[i].values[0] == Renderings(calls, render, d)
    && forall k :: 0 <= k < |calls| && IdOfFrames(render(calls[k].key)) == d ==>
      Pprof.Shows(p, p.samples[i], text, render(calls[k].key))
  }

  /** Each accepted sample has its place in the profile. */
  ghost predicate AllPlaced<K>(calls: seq<Call<K>>, render: K -> Frames, order: seq<FramesId>) {
    forall k :: 0 <= k < |calls| ==> IdOfFrames(render(calls[k].key)) in order
  }

  lemma {:induction false} EntryCountsAndShows<K(!new), C>(
    cfg: Config<K, C>, calls: seq<Call<K>>, stream: seq<Entry<K>>, render: K -> Frames,
    p: Pprof.Profile, order: seq<FramesId>, text: Text, frequency: int, i: nat)
    requires ConfigOk(cfg) && OneEach(calls) && ReadAs(cfg, calls, stream) && frequency != 0
    requires RendersAlike(Asked(calls), cfg.keys.id, render, IdOfFrames)
    requires Pprof.Encoded(p, Report(stream, render, IdOfFrames), order, text) && i < |order|
    requires Carries(p.samples, Slots(Report(stream, render, IdOfFrames), order), frequency)
    ensures CountsAndShows(p, i, order[i], calls, render, text)
  {
    var report, d := Report(stream, render, IdOfFrames), order[i];
    SumOfOnes(calls);
    ReportIsExact(cfg, calls, stream, render, IdOfFrames, d);
    OnesCounted(calls, After(render, OfClass(IdOfFrames, d)));
    TalliedMeaning(Mapped(Positive(stream), render), IdOfFrames, d);
    assert Slots(report, order)[i] == report[d];
    forall k | 0 <= k < |calls| && IdOfFrames(render(calls[k].key)) == d
      ensures Pprof.Shows(p, p.samples[i], text, render(calls[k].key))
    {
      Pprof.SampleShows(p, p.samples[i], report[d], Pprof.SymbolsOf(report, order), text, render(calls[k].key));
    }
  }

  /** Where stacks that are equal render alike, the exported profile is exact: each sample of it counts the
      accepted samples that render to its key, and shows each of them with its own names and thread; and every
      accepted sample has exactly one such place. */
  lemma {:induction false} ProfileIsExact<K(!new), C>(
    init: Protocol.System<K>, cfg: Config<K, C>, events: seq<Protocol.Event<K>>, s: Protocol.System<K>,
    stream: seq<Entry<K>>, render: K -> Frames, p: Pprof.Profile, order: seq<FramesId>, text: Text, frequency: int)
    requires ConfigOk(cfg) && frequency != 0
    requires Protocol.Initial(init, cfg) && Protocol.Exec(init, cfg, events) == Some(s)
    requires StateOk(s.world.prof.data, cfg) && Stream(s.world.prof.data, cfg, true) == Ok(stream)
    requires RendersAlike(Asked(s.accepted), cfg.keys.id, render, IdOfFrames)
    requires Pprof.Encoded(p, Report(stream, render, IdOfFrames), order, text)
    requires Carries(p.samples, Slots(Report(stream, render, IdOfFrames), order), frequency)
    ensures forall i :: 0 <= i < |order| ==> CountsAndShows(p, i, order[i], s.accepted, render, text)
    ensures AllPlaced(s.accepted, render, order) && forall i, j :: 0 <= i < j < |order| ==> order[i] != order[j]
  {
    Protocol.InitialInv(init, cfg);
    Protocol.InvKept(init, cfg, events, init.world.sigprof);
    StreamIsExact(cfg, s.accepted, true, All());
    forall i | 0 <= i < |order| ensures CountsAndShows(p, i, order[i], s.accepted, render, text) {
      EntryCountsAndShows(cfg, s.accepted, stream, render, p, order, text, frequency, i);
    }
    SumOfOnes(s.accepted);
    forall k | 0 <= k < |s.accepted| ensures IdOfFrames(render(s.accepted[k].key)) in order {
      ReportIsExact(cfg, s.accepted, stream, render, IdOfFrames, IdOfFrames(render(s.accepted[k].key)));
    }
  }

  /** The keys that show these names for this thread, whatever their time and thread name. */
  function Showing(names: seq<seq<seq<Byte>>>, threadId: nat): Frames -> bool {
    (f: Frames) => NamesOf(f.frames) == names && f.threadId == threadId
  }

  /** Without a post-processor a stack may be split over several keys, but none of its samples is lost or
      misnamed: the keys that show given names for a thread count together the samples that show them. */
  lemma {:induction false} DefaultCountsNames<H>(h: Hasher<H>, buckets: nat, lay: Layout, default: UnresolvedFrames,
      calls: seq<Call<UnresolvedFrames>>, stream: seq<Entry<UnresolvedFrames>>, r: Resolver, text: Text,
      order: seq<FramesId>, names: seq<seq<seq<Byte>>>, threadId: nat)
    requires buckets > 0 && LayoutOk(lay) && OneEach(calls)
    requires ReadAs(StackConfig(h, buckets, lay, default), calls, stream) && NamesAgree(Asked(calls), r, text)
    requires Enumerates(order, Report(stream, Rendering(r, text), IdOfFrames))
    ensures var q := Showing(names, threadId);
      Sum(Slots(Report(stream, Rendering(r, text), IdOfFrames), order), q)
        == Count(Asked(calls), After(Rendering(r, text), q))
  {
    var q, render := Showing(names, threadId), Rendering(r, text);
    StackConfigOk(h, buckets, lay, default);
    SumOfOnes(calls);
    RenderingShows(Asked(calls), r, text, q, names, threadId);
    ShowingRespects(Mapped(stream, render), names, threadId);
    ReportSumIsExact(StackConfig(h, buckets, lay, default), calls, stream, render, IdOfFrames, order, q);
    OnesCounted(calls, After(render, q));
  }

  lemma {:induction false} RenderingShows(es: seq<Entry<UnresolvedFrames>>, r: Resolver, text: Text,
      q: Frames -> bool, names: seq<seq<seq<Byte>>>, threadId: nat)
    requires NamesAgree(es, r, text) && q == Showing(names, threadId)
    ensures RespectsOn(After(Rendering(r, text), q), IdOfStack, es)
  {
    forall i, j | 0 <= i < |es| && 0 <= j < |es| && IdOfStack(es[i].item) == IdOfStack(es[j].item)
      ensures After(Rendering(r, text), q)(es[i].item) == After(Rendering(r, text), q)(es[j].item)
    {
      assert ShownNames(es[i].item, r, text) == ShownNames(es[j].item, r, text);
    }
  }

  lemma {:induction false} ShowingRespects(es: seq<Entry<Frames>>, names: seq<seq<seq<Byte>>>, threadId: nat)
    ensures RespectsOn(Showing(names, threadId), IdOfFrames, es)
  {
    forall i, j | 0 <= i < |es| && 0 <= j < |es| && IdOfFrames(es[i].item) == IdOfFrames(es[j].item)
      ensures Showing(names, threadId)(es[i].item) == Showing(names, threadId)(es[j].item)
    {
      assert IdOfFrames(es[i].item).names == IdOfFrames(es[j].item).names;
    }
  }

  /** An export of the report of a reachable state satisfies what `ProfileConserves` and `ProfileIsExact` ask of
      its profile. */
  method Export(data: Tally<Frames, FramesId>, text: Text, frequency: int)
    returns (p: Pprof.Profile, ghost order: seq<FramesId>)
    requires frequency != 0
    ensures Pprof.Encoded(p, data, order, text) && Carries(p.samples, Slots(data, order), frequency)
    ensures |p.samples| == |data|
  {
    p, order := Pprof.Encode(data, text, frequency);
    OrderCounts(order, data);
  }
}
