/** `TempFdArray`: a fixed buffer of entries, written to a temporary file one whole buffer at a time. */
module SpillLogs {
  import opened Entries

  /** `block` is the buffer's length in entries, `size` the size of an entry in the file. */
  datatype Layout = Layout(block: nat, size: nat)

  predicate LayoutOk(lay: Layout) {
    lay.block > 0 && lay.size > 0
  }

  /** One unit of the file: the `offset`-th part of the representation of `entry`. */
  datatype Cell<+K> = Cell(entry: Entry<K>, offset: nat)

  /** How the file system answers `write_all`: all of it, or an error after a proper prefix. */
  datatype Write = Complete | Torn(written: nat)

  /** The length of `n` consecutive stretches of length `m`. */
  function Times(n: nat, m: nat): nat {
    if n == 0 then 0 else Times(n - 1, m) + m
  }

  lemma {:induction false} TimesIsProduct(n: nat, m: nat)
    ensures Times(n, m) == n * m
  {
    if n > 0 {
      TimesIsProduct(n - 1, m);
      assert (n - 1) * m + m == n * m;
    }
  }

  lemma {:induction false} TimesMonotone(k: nat, n: nat, m: nat)
    requires k < n
    ensures Times(k, m) + m <= Times(n, m)
  {
    if k < n - 1 {
      TimesMonotone(k, n - 1, m);
    }
  }

  lemma {:induction false} TimesAdds(a: nat, b: nat, m: nat)
    ensures Times(a + b, m) == Times(a, m) + Times(b, m)
  {
    if b > 0 {
      TimesAdds(a, b - 1, m);
      assert a + b - 1 == a + (b - 1);
    }
  }

  lemma {:induction false} TimesAssociates(a: nat, b: nat, c: nat)
    ensures Times(Times(a, b), c) == Times(a, Times(b, c))
  {
    if a > 0 {
      TimesAssociates(a - 1, b, c);
      TimesAdds(Times(a - 1, b), b, c);
    }
  }

  function CellsOf<K>(e: Entry<K>, size: nat): (cs: seq<Cell<K>>)
    ensures |cs| == size
  {
    seq(size, j requires j >= 0 => Cell(e, j))
  }

  /** The file image of a sequence of entries. */
  function Encode<K>(es: seq<Entry<K>>, size: nat): seq<Cell<K>> {
    if |es| == 0 then [] else Encode(es[..|es| - 1], size) + CellsOf(es[|es| - 1], size)
  }

  lemma {:induction false} EncodeLength<K>(es: seq<Entry<K>>, size: nat)
    ensures |Encode(es, size)| == Times(|es|, size)
  {
    if |es| > 0 {
      EncodeLength(es[..|es| - 1], size);
    }
  }

  /** Reading the file as an array of `n` entries: whatever sits at an entry boundary is taken for one. */
  function Decode<K>(cells: seq<Cell<K>>, n: nat, size: nat): (es: seq<Entry<K>>)
    requires size > 0 && Times(n, size) <= |cells|
    ensures |es| == n
  {
    seq(n, k requires 0 <= k < n => TimesMonotone(k, n, size); cells[Times(k, size)].entry)
  }

  /** Entry `k` of the file is `e`, in one piece and at its place. */
  ghost predicate WholeAt<K>(cells: seq<Cell<K>>, k: nat, e: Entry<K>, size: nat) {
    && Times(k, size) + size <= |cells|
    && cells[Times(k, size)..Times(k, size) + size] == CellsOf(e, size)
  }

  lemma {:induction false} EncodeWhole<K>(es: seq<Entry<K>>, size: nat, k: nat)
    requires k < |es|
    ensures WholeAt(Encode(es, size), k, es[k], size)
  {
    var last := |es| - 1;
    EncodeLength(es[..last], size);
    if k < last {
      EncodeWhole(es[..last], size, k);
    }
  }

  /** That is, each of its parts in turn. */
  lemma {:induction false} WholeCell<K>(cells: seq<Cell<K>>, k: nat, e: Entry<K>, size: nat, j: nat)
    requires WholeAt(cells, k, e, size) && j < size
    ensures Times(k, size) + j < |cells| && cells[Times(k, size) + j] == Cell(e, j)
  {
    assert cells[Times(k, size)..Times(k, size) + size][j] == CellsOf(e, size)[j];
  }

  lemma {:induction false} DecodeEncode<K>(es: seq<Entry<K>>, size: nat)
    requires size > 0
    ensures Times(|es|, size) == |Encode(es, size)|
    ensures Decode(Encode(es, size), |es|, size) == es
  {
    var cells := Encode(es, size);
    EncodeLength(es, size);
    forall k | 0 <= k < |es| ensures Decode(cells, |es|, size)[k] == es[k] {
      EncodeWhole(es, size, k);
      assert cells[Times(k, size)] == CellsOf(es[k], size)[0];
    }
  }

  lemma {:induction false} EncodeConcat<K>(a: seq<Entry<K>>, b: seq<Entry<K>>, size: nat)
    ensures Encode(a + b, size) == Encode(a, size) + Encode(b, size)
  {
    if |b| == 0 {
      assert a + b == a;
    } else {
      assert (a + b)[..|a + b| - 1] == a + b[..|b| - 1];
      EncodeConcat(a, b[..|b| - 1], size);
    }
  }

  /** `buffer` keeps its full length; only the first `index` places are live. */
  datatype Log<+K> = Log(buffer: seq<Entry<K>>, index: nat, flushes: nat, file: seq<Cell<K>>)

  function FreshLog<K>(lay: Layout, default: Entry<K>): Log<K> {
    Log(seq(lay.block, _ => default), 0, 0, [])
  }

  /** The length of `flushes` whole blocks in the file. */
  function BlocksLength(lay: Layout, flushes: nat): nat {
    Times(flushes, Times(lay.block, lay.size))
  }

  function Written<K>(cells: seq<Cell<K>>, w: Write): seq<Cell<K>>
  {
    if w.Complete? || |cells| == 0 then cells
    else if w.written < |cells| then cells[..w.written] else cells[..|cells| - 1]
  }

  ghost predicate LogOk<K>(log: Log<K>, lay: Layout) {
    LayoutOk(lay) && |log.buffer| == lay.block && log.index <= lay.block
  }

  function LogFlush<K>(log: Log<K>, lay: Layout, w: Write): Log<K>
    requires LayoutOk(lay) && |log.buffer| == lay.block
  {
    Log(log.buffer, 0, log.flushes + 1, log.file + Written(Encode(log.buffer, lay.size), w))
  }

  datatype Pushed<+K> = Pushed(log: Log<K>, ok: bool)

  function LogPush<K>(log: Log<K>, lay: Layout, e: Entry<K>, w: Write): Pushed<K>
    requires LayoutOk(lay) && |log.buffer| == lay.block
  {
    var full := log.index >= lay.block;
    var ready := if full then LogFlush(log, lay, w) else log;
    if full && w.Torn? then Pushed(ready, false)
    else Pushed(ready.(buffer := ready.buffer[ready.index := e], index := ready.index + 1), true)
  }

  /** `read_exact` fails on a file shorter than the flushed blocks; `reopen` is the file system's answer. */
  function LogTryIter<K>(log: Log<K>, lay: Layout, reopen: bool): Result<seq<Entry<K>>, ()>
    requires LayoutOk(lay) && log.index <= |log.buffer| == lay.block
  {
    if !reopen || |log.file| < BlocksLength(lay, log.flushes) then Err(())
    else
      Ok(log.buffer[..log.index] + FileEntries(log, lay))
  }

  function FileEntries<K>(log: Log<K>, lay: Layout): seq<Entry<K>>
    requires lay.size > 0 && |log.file| >= BlocksLength(lay, log.flushes)
  {
    TimesAssociates(log.flushes, lay.block, lay.size);
    Decode(log.file[..BlocksLength(lay, log.flushes)], Times(log.flushes, lay.block), lay.size)
  }

  /** How many of the pushed entries are no longer in the buffer. */
  function Filed<K>(log: Log<K>, pushed: seq<Entry<K>>): nat
    requires log.index <= |pushed|
  {
    |pushed| - log.index
  }

  /** The log stands for the sequence `pushed`: whole blocks in the file, in order, the rest in the buffer. */
  ghost predicate Represents<K>(log: Log<K>, lay: Layout, pushed: seq<Entry<K>>) {
    && LogOk(log, lay)
    && log.index <= |pushed|
    && Times(log.flushes, lay.block) == Filed(log, pushed)
    && (|pushed| > 0 ==> log.index > 0)
    && log.file == Encode(pushed[..Filed(log, pushed)], lay.size)
    && log.buffer[..log.index] == pushed[Filed(log, pushed)..]
  }

  /** Some block was lost in part: the file is too short for the blocks it should hold. */
  ghost predicate Short<K>(log: Log<K>, lay: Layout) {
    LogOk(log, lay) && |log.file| < BlocksLength(lay, log.flushes)
  }

  lemma {:induction false} FreshRepresents<K>(lay: Layout, default: Entry<K>)
    requires LayoutOk(lay)
    ensures Represents(FreshLog(lay, default), lay, [])
  {
    var log := FreshLog(lay, default);
    assert log.flushes * lay.block == 0;
  }

  lemma {:induction false} FlushKeeps<K>(log: Log<K>, lay: Layout, pushed: seq<Entry<K>>)
    requires Represents(log, lay, pushed) && log.index == lay.block
    ensures var after := LogFlush(log, lay, Complete);
      Times(after.flushes, lay.block) == |pushed| && after.file == Encode(pushed, lay.size)
  {
    var n := Filed(log, pushed);
    assert pushed == pushed[..n] + log.buffer by {
      assert log.buffer == log.buffer[..log.index];
    }
    EncodeConcat(pushed[..n], log.buffer, lay.size);
  }

  /** A push that reports success appends to the represented sequence. */
  lemma {:induction false} PushAppends<K>(log: Log<K>, lay: Layout, e: Entry<K>, w: Write, pushed: seq<Entry<K>>)
    requires Represents(log, lay, pushed) && LogPush(log, lay, e, w).ok
    ensures Represents(LogPush(log, lay, e, w).log, lay, pushed + [e])
  {
    if log.index >= lay.block {
      FlushKeeps(log, lay, pushed);
      assert pushed[..|pushed|] == pushed;
      StoreKeeps(LogFlush(log, lay, w), lay, e, pushed);
    } else {
      StoreKeeps(log, lay, e, pushed);
    }
  }

  lemma {:induction false} StoreKeeps<K>(log: Log<K>, lay: Layout, e: Entry<K>, pushed: seq<Entry<K>>)
    requires LogOk(log, lay) && log.index < lay.block && log.index <= |pushed|
    requires Times(log.flushes, lay.block) == Filed(log, pushed)
    requires log.file == Encode(pushed[..Filed(log, pushed)], lay.size)
    requires log.buffer[..log.index] == pushed[Filed(log, pushed)..]
    ensures Represents(log.(buffer := log.buffer[log.index := e], index := log.index + 1), lay, pushed + [e])
  {
    var n := Filed(log, pushed);
    assert (pushed + [e])[..n] == pushed[..n];
    assert (pushed + [e])[n..] == pushed[n..] + [e];
    assert log.buffer[log.index := e][..log.index + 1] == log.buffer[..log.index] + [e];
  }

  /** What a write leaves in the file: all of it, or the part that was written before the error, never all. */
  lemma {:induction false} WrittenMeaning<K>(cells: seq<Cell<K>>, w: Write)
    requires |cells| > 0
    ensures Written(cells, w) <= cells
    ensures w.Complete? <==> Written(cells, w) == cells
    ensures w.Torn? && w.written < |cells| ==> |Written(cells, w)| == w.written
  {
  }

  /** A push whose flush fails: the buffer counts as flushed and empty all the same, the file has only part of
      it, and the entry is gone. The next push starts at the beginning of the buffer. */
  lemma {:induction false} FailedPush<K>(log: Log<K>, lay: Layout, e: Entry<K>, w: Write)
    requires LogOk(log, lay)
    ensures LogPush(log, lay, e, w).ok <==> log.index < lay.block || w == Complete
    ensures !LogPush(log, lay, e, w).ok ==>
      var after := LogPush(log, lay, e, w).log;
      && after.index == 0 && after.flushes == log.flushes + 1 && after.buffer == log.buffer
      && log.file <= after.file && |after.file| < |log.file| + Times(lay.block, lay.size)
      && after.file[|log.file|..] <= Encode(log.buffer, lay.size)
  {
    EncodeLength(log.buffer, lay.size);
    TimesMonotone(0, lay.block, lay.size);
    if !LogPush(log, lay, e, w).ok {
      WrittenMeaning(Encode(log.buffer, lay.size), w);
      var after := LogPush(log, lay, e, w).log;
      assert after.file[|log.file|..] == Written(Encode(log.buffer, lay.size), w);
    }
  }

  /** Success leaves the file as far behind its blocks as it was; failure leaves it behind, from then on. */
  lemma {:induction false} PushShort<K>(log: Log<K>, lay: Layout, e: Entry<K>, w: Write)
    requires LogOk(log, lay) && |log.file| <= BlocksLength(lay, log.flushes)
    ensures var a := LogPush(log, lay, e, w);
      && LogOk(a.log, lay)
      && |a.log.file| <= BlocksLength(lay, a.log.flushes)
      && (Short(a.log, lay) <==> Short(log, lay) || !a.ok)
  {
    EncodeLength(log.buffer, lay.size);
    TimesMonotone(0, lay.block, lay.size);
  }

  lemma {:induction false} RepresentsIsFull<K>(log: Log<K>, lay: Layout, pushed: seq<Entry<K>>)
    requires Represents(log, lay, pushed)
    ensures |log.file| == BlocksLength(lay, log.flushes)
  {
    EncodeLength(pushed[..Filed(log, pushed)], lay.size);
    TimesAssociates(log.flushes, lay.block, lay.size);
  }

  /** After n successful pushes, whole blocks are in the file and the rest, never none, in the buffer. */
  lemma {:induction false} PushesAccounted<K>(log: Log<K>, lay: Layout, pushed: seq<Entry<K>>)
    requires Represents(log, lay, pushed)
    ensures log.flushes * lay.block + log.index == |pushed|
    ensures |log.file| == log.flushes * (lay.block * lay.size)
    ensures |pushed| > 0 ==> 0 < log.index <= lay.block
  {
    RepresentsIsFull(log, lay, pushed);
    TimesIsProduct(log.flushes, lay.block);
    TimesIsProduct(lay.block, lay.size);
    TimesIsProduct(log.flushes, Times(lay.block, lay.size));
  }

  lemma {:induction false} FileEntriesArePushes<K>(log: Log<K>, lay: Layout, pushed: seq<Entry<K>>)
    requires Represents(log, lay, pushed)
    ensures |log.file| == BlocksLength(lay, log.flushes)
    ensures FileEntries(log, lay) == pushed[..Filed(log, pushed)]
  {
    RepresentsIsFull(log, lay, pushed);
    assert log.file[..BlocksLength(lay, log.flushes)] == log.file;
    DecodeEncode(pushed[..Filed(log, pushed)], lay.size);
  }

  /** The iterator yields the buffer's live part, then the file: each push once, no stale buffer place. */
  lemma {:induction false} TryIterYieldsPushes<K>(log: Log<K>, lay: Layout, pushed: seq<Entry<K>>)
    requires Represents(log, lay, pushed)
    ensures var n := |pushed| - log.index;
      LogTryIter(log, lay, true) == Ok(pushed[n..] + pushed[..n])
  {
    FileEntriesArePushes(log, lay, pushed);
    assert log.buffer[..log.index] == pushed[|pushed| - log.index..];
    assert FileEntries(log, lay) == pushed[..|pushed| - log.index];
  }

  /** Every entry read from the file is one entry written there, in one piece and at its place. */
  lemma {:induction false} FileHoldsPushes<K>(log: Log<K>, lay: Layout, pushed: seq<Entry<K>>, k: nat)
    requires Represents(log, lay, pushed) && k < |pushed| - log.index
    ensures WholeAt(log.file, k, pushed[k], lay.size)
  {
    EncodeWhole(pushed[..Filed(log, pushed)], lay.size, k);
  }

  class TempFdArray<K> {
    const lay: Layout
    const buffer: array<Entry<K>>
    var index: nat
    var flushes: nat
    var file: seq<Cell<K>>

    ghost predicate Valid()
      reads this
    {
      LayoutOk(lay) && buffer.Length == lay.block && index <= lay.block
    }

    ghost function State(): (log: Log<K>)
      reads this, buffer
      ensures Valid() ==> LogOk(log, lay)
    {
      Log(buffer[..], index, flushes, file)
    }

    constructor (lay: Layout, default: Entry<K>)
      requires LayoutOk(lay)
      ensures Valid() && fresh(buffer) && this.lay == lay && State() == FreshLog(lay, default)
    {
      this.lay := lay;
      buffer := new Entry<K>[lay.block](_ => default);
      index, flushes, file := 0, 0, [];
    }

    method FlushBuffer(w: Write) returns (ok: bool)
      requires Valid()
      modifies this
      ensures Valid() && State() == LogFlush(old(State()), lay, w) && ok == w.Complete?
    {
      index := 0;
      var image := Encode(buffer[..], lay.size);
      flushes := flushes + 1;
      file := file + Written(image, w);
      ok := w.Complete?;
    }

    method Push(e: Entry<K>, w: Write) returns (ok: bool)
      requires Valid()
      modifies this, buffer
      ensures Valid()
      ensures var a := LogPush(old(State()), lay, e, w); State() == a.log && ok == a.ok
    {
      if index >= lay.block {
        ok := FlushBuffer(w);
        if !ok {
          return;
        }
      }
      buffer[index] := e;
      index := index + 1;
      ok := true;
    }

    method TryIter(reopen: bool) returns (r: Result<LogIterator<K>, ()>)
      requires Valid()
      ensures var spec := LogTryIter(State(), lay, reopen);
        if spec.Err? then r.Err?
        else r.Ok? && fresh(r.value) && r.value.Valid() && r.value.index == 0 && r.value.All() == spec.value
    {
      var length := BlocksLength(lay, flushes);
      if !reopen || |file| < length {
        return Err(());
      }
      TimesAssociates(flushes, lay.block, lay.size);
      SlotsIn(Times(flushes, lay.block), lay.size);
      var it := new LogIterator(buffer[..index], file[..length], lay.size);
      r := Ok(it);
    }
  }

  /** Whole-number division by the entry size gives back the number of entries. */
  lemma {:induction false} SlotsIn(n: nat, size: nat)
    requires size > 0
    ensures Times(n, size) / size == n
  {
    var q := Times(n, size) / size;
    SlotsFit(Times(n, size), size);
    if q < n {
      TimesMonotone(q, n, size);
    } else if n < q {
      TimesMonotone(n, q, size);
    }
  }

  lemma {:induction false} DecodedAt<K>(cells: seq<Cell<K>>, n: nat, size: nat, k: nat)
    requires size > 0 && Times(n, size) <= |cells| && k < n
    ensures k * size < |cells| && Decode(cells, n, size)[k] == cells[k * size].entry
  {
    TimesMonotone(k, n, size);
    TimesIsProduct(k, size);
  }

  lemma {:induction false} SlotsFit(length: nat, size: nat)
    requires size > 0
    ensures Times(length / size, size) <= length < Times(length / size, size) + size
  {
    TimesIsProduct(length / size, size);
  }

  /** `TempFdArrayIterator`. */
  class LogIterator<K> {
    const buffer: seq<Entry<K>>
    const fileVec: seq<Cell<K>>
    const size: nat
    var index: nat

    ghost predicate Valid()
      reads this
    {
      size > 0 && Times(|fileVec| / size, size) <= |fileVec| && index <= |All()|
    }

    ghost function All(): seq<Entry<K>>
      requires size > 0 && Times(|fileVec| / size, size) <= |fileVec|
    {
      buffer + Decode(fileVec, |fileVec| / size, size)
    }

    constructor (buffer: seq<Entry<K>>, fileVec: seq<Cell<K>>, size: nat)
      requires size > 0
      ensures Valid() && this.buffer == buffer && this.fileVec == fileVec && this.size == size && index == 0
    {
      SlotsFit(|fileVec|, size);
      this.buffer, this.fileVec, this.size, index := buffer, fileVec, size, 0;
    }

    method Next() returns (r: Option<Entry<K>>)
      requires Valid()
      modifies this
      ensures Valid()
      ensures old(index) < |All()| ==> r == Some(All()[old(index)]) && index == old(index) + 1
      ensures old(index) == |All()| ==> r == None && index == old(index)
    {
      if index < |buffer| {
        index := index + 1;
        r := Some(buffer[index - 1]);
      } else {
        var length := |fileVec| / size;
        if index - |buffer| < length {
          DecodedAt(fileVec, length, size, index - |buffer|);
          index := index + 1;
          r := Some(fileVec[(index - |buffer| - 1) * size].entry);
        } else {
          r := None;
        }
      }
    }

    /** Calls `Next` until it answers None: the iterator terminates. */
    method Drain() returns (es: seq<Entry<K>>)
      requires Valid() && index == 0
      modifies this
      ensures Valid() && es == All()
    {
      es := [];
      var next := Next();
      while next.Some?
        invariant Valid()
        invariant next.Some? ==> 0 < index && next.value == All()[index - 1]
        invariant es == All()[..if next.Some? then index - 1 else index]
        invariant next == None ==> index == |All()|
        decreases next.Some?, |All()| - index
      {
        es := es + [next.value];
        next := Next();
      }
    }
  }
}
