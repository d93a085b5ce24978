/** `Profiler`: starting, stopping and sampling, as its methods change its fields and SIGPROF's disposition. */
module Profilers {
  import opened Entries
  import opened SpillLogs
  import opened Collectors
  import FramePointers

  /** What SIGPROF does: something the application chose, or the profiler's handler. */
  datatype Disposition = Foreign(id: nat) | Handler(onStack: bool)

  datatype Error = NixError | IoError | CreatingError | Running | NotRunning

  type Answer = Result<(), Error>

  datatype Profiler<+K> = Profiler(
    data: State<K>, sampleCounter: int, oldSigaction: Option<Disposition>, running: bool,
    onStack: bool, blocklist: FramePointers.Segments)

  /** A profiler and the process-wide disposition it changes. */
  datatype World<+K> = World(prof: Profiler<K>, sigprof: Disposition)

  function NewProfiler<K, C>(cfg: Config<K, C>): Profiler<K> {
    Profiler(Fresh(cfg), 0, None, false, false, [])
  }

  /** `start`; `ok` is the answer of sigaction. */
  function Started<K>(w: World<K>, ok: bool): (World<K>, Answer) {
    if w.prof.running then (w, Err(Running))
    else if !ok then (w, Err(NixError))
    else (World(w.prof.(oldSigaction := Some(w.sigprof), running := true), Handler(w.prof.onStack)), Ok(()))
  }

  /** `unregister_signal_handler`: the saved action is taken even if putting it back fails. */
  function Unregister<K>(w: World<K>, ok: bool): (World<K>, Answer) {
    match w.prof.oldSigaction
    case None => (w, Ok(()))
    case Some(saved) =>
      var prof := w.prof.(oldSigaction := None);
      if ok then (World(prof, saved), Ok(())) else (World(prof, w.sigprof), Err(NixError))
  }

  /** `init`: the counter is reset even if no new collector can be made. */
  function Inited<K, C>(p: Profiler<K>, cfg: Config<K, C>, ok: bool): (Profiler<K>, Answer) {
    var p := p.(sampleCounter := 0);
    if ok then (p.(data := Fresh(cfg), running := false), Ok(())) else (p, Err(IoError))
  }

  function Stopped<K, C>(w: World<K>, cfg: Config<K, C>, sigOk: bool, newOk: bool): (World<K>, Answer) {
    if !w.prof.running then (w, Err(NotRunning))
    else
      var (w1, r1) := Unregister(w, sigOk);
      if r1.Err? then (w1, r1)
      else
        var (p, r2) := Inited(w1.prof, cfg, newOk);
        (w1.(prof := p), r2)
  }

  /** `sample`: the count goes up whether or not the collector can keep the sample. */
  function Sampled<K, C(==)>(p: Profiler<K>, cfg: Config<K, C>, key: K, w: Write): Profiler<K>
    requires |p.data.table| == cfg.keys.buckets > 0
    requires LayoutOk(cfg.lay) && |p.data.log.buffer| == cfg.lay.block
  {
    p.(sampleCounter := p.sampleCounter + 1, data := CollectorAdd(p.data, cfg, key, 1, w).state)
  }

  /** The process's table of signal actions, as far as SIGPROF goes. */
  class Signals {
    var sigprof: Disposition

    constructor (d: Disposition)
      ensures sigprof == d
    {
      sigprof := d;
    }

    method Sigaction(d: Disposition, ok: bool) returns (r: Result<Disposition, Error>)
      modifies this
      ensures ok ==> r == Ok(old(sigprof)) && sigprof == d
      ensures !ok ==> r == Err(NixError) && sigprof == old(sigprof)
    {
      if !ok {
        return Err(NixError);
      }
      r := Ok(sigprof);
      sigprof := d;
    }
  }

  class ProfilerObject<K, C(==)> {
    const cfg: Config<K, C>
    const signals: Signals
    var data: Collector<K, C>
    var sampleCounter: int
    var oldSigaction: Option<Disposition>
    var running: bool
    var onStack: bool
    var blocklist: FramePointers.Segments

    ghost predicate Valid()
      reads this, data, data.Repr
    {
      && data.Valid() && data.cfg == cfg
      && this !in data.Repr && signals !in data.Repr
      && cfg.keys.buckets > 0 && LayoutOk(cfg.lay)
    }

    ghost function Contents(): (w: World<K>)
      requires Valid()
      reads this, data, data.Repr, signals
    {
      World(Profiler(data.Contents(), sampleCounter, oldSigaction, running, onStack, blocklist), signals.sigprof)
    }

    constructor (cfg: Config<K, C>, signals: Signals)
      requires cfg.keys.buckets > 0 && LayoutOk(cfg.lay)
      ensures Valid() && this.cfg == cfg && this.signals == signals && fresh(data.Repr)
      ensures Contents() == World(NewProfiler(cfg), signals.sigprof)
    {
      this.cfg, this.signals := cfg, signals;
      data := new Collector(cfg);
      sampleCounter, oldSigaction, running, onStack, blocklist := 0, None, false, false, [];
    }

    method RegisterSignalHandler(ok: bool) returns (r: Answer)
      requires Valid()
      modifies this`oldSigaction, signals
      ensures Valid()
      ensures !ok ==> r == Err(NixError) && Contents() == old(Contents())
      ensures ok ==> r == Ok(())
      ensures ok ==>
        Contents() == World(old(Contents()).prof.(oldSigaction := Some(old(signals.sigprof))), Handler(onStack))
    {
      var answer := signals.Sigaction(Handler(onStack), ok);
      if answer.Err? {
        return Err(answer.error);
      }
      oldSigaction := Some(answer.value);
      r := Ok(());
    }

    method UnregisterSignalHandler(ok: bool) returns (r: Answer)
      requires Valid()
      modifies this`oldSigaction, signals
      ensures Valid() && (Contents(), r) == Unregister(old(Contents()), ok)
    {
      r := Ok(());
      if oldSigaction.Some? {
        var oldAction := oldSigaction.value;
        oldSigaction := None;
        var answer := signals.Sigaction(oldAction, ok);
        if answer.Err? {
          r := Err(answer.error);
        }
      }
    }

    method Start(ok: bool) returns (r: Answer)
      requires Valid()
      modifies this`oldSigaction, this`running, signals
      ensures Valid() && (Contents(), r) == Started(old(Contents()), ok)
      ensures r == if old(running) then Err(Running) else if !ok then Err(NixError) else Ok(())
      ensures r.Err? ==> Contents() == old(Contents())
      ensures r.Ok? ==> running && oldSigaction == Some(old(signals.sigprof)) && signals.sigprof == Handler(onStack)
    {
      if running {
        return Err(Running);
      }
      r := RegisterSignalHandler(ok);
      if r.Ok? {
        running := true;
      }
    }

    method Init(ok: bool) returns (r: Answer)
      requires Valid()
      modifies this
      ensures Valid() && fresh(data.Repr - old(data.Repr)) && unchanged(signals)
      ensures var (p, o) := Inited(old(Contents()).prof, cfg, ok); Contents().prof == p && r == o
    {
      sampleCounter := 0;
      if !ok {
        return Err(IoError);
      }
      data := new Collector(cfg);
      running := false;
      r := Ok(());
    }

    method Stop(sigOk: bool, newOk: bool) returns (r: Answer)
      requires Valid()
      modifies this, signals
      ensures Valid() && fresh(data.Repr - old(data.Repr))
      ensures (Contents(), r) == Stopped(old(Contents()), cfg, sigOk, newOk)
      ensures !old(running) ==> r == Err(NotRunning) && Contents() == old(Contents())
      ensures old(running) && old(oldSigaction).Some? ==>
        && r == (if !sigOk then Err(NixError) else if !newOk then Err(IoError) else Ok(()))
        && oldSigaction == None && (running <==> r.Err?)
        && signals.sigprof == if sigOk then old(oldSigaction).value else old(signals.sigprof)
    {
      if !running {
        return Err(NotRunning);
      }
      r := UnregisterSignalHandler(sigOk);
      if r.Ok? {
        r := Init(newOk);
      }
    }

    method Sample(key: K, w: Write)
      requires Valid()
      modifies this`sampleCounter, data.Repr
      ensures Valid()
      ensures Contents() == World(Sampled(old(Contents()).prof, cfg, key, w), old(signals.sigprof))
    {
      sampleCounter := sampleCounter + 1;
      var _ := data.Add(key, 1, w);
    }
  }
}
