/** The frame-pointer walk over arbitrary memory, with the signal handler's callback. */
module FramePointers {
  import opened Entries

  /** What lies at a frame address: the caller's frame pointer and the return address. */
  datatype FramePointerLayout = FramePointerLayout(framePointer: nat, ret: nat)

  /** Memory during one walk. `valid` is the address check; it rejects null. */
  datatype Memory = Memory(read: nat -> FramePointerLayout, valid: nat -> bool)

  /** The `k`-th address of the chain of saved frame pointers. */
  function Address(mem: Memory, start: nat, k: nat): nat {
    if k == 0 then start else mem.read(Address(mem, start, k - 1)).framePointer
  }

  function Ip(mem: Memory, start: nat, k: nat): nat {
    mem.read(Address(mem, start, k)).ret
  }

  /** Link `k` passes the walk's own checks: readable, and not below the link before it. */
  predicate Passes(mem: Memory, start: nat, k: nat) {
    mem.valid(Address(mem, start, k)) && (k > 0 ==> Address(mem, start, k - 1) <= Address(mem, start, k))
  }

  type Segments = seq<(nat, nat)>

  predicate InSegments(segments: Segments, addr: nat) {
    exists i :: 0 <= i < |segments| && segments[i].0 < addr < segments[i].1
  }

  /** `is_blocklisted`: strictly inside some segment. */
  method IsBlocklisted(segments: Segments, addr: nat) returns (r: bool)
    ensures r <==> InSegments(segments, addr)
  {
    for i := 0 to |segments|
      invariant forall j :: 0 <= j < i ==> !(segments[j].0 < addr < segments[j].1)
    {
      if addr > segments[i].0 && addr < segments[i].1 {
        return true;
      }
    }
    r := false;
  }

  predicate Recordable(mem: Memory, start: nat, segments: Segments, k: nat) {
    Passes(mem, start, k) && !InSegments(segments, Ip(mem, start, k))
  }

  /** `n` links, and no more, are recordable one after another within the depth. */
  ghost predicate LongestPrefix(mem: Memory, start: nat, segments: Segments, depth: nat, n: nat) {
    && n <= depth
    && (forall k :: 0 <= k < n ==> Recordable(mem, start, segments, k))
    && (n < depth ==> !Recordable(mem, start, segments, n))
  }

  function Ips(mem: Memory, start: nat, n: nat): seq<nat> {
    seq(n, k requires 0 <= k => Ip(mem, start, k))
  }

  function ChainAddresses(mem: Memory, start: nat, n: nat): seq<nat> {
    seq(n, k requires 0 <= k => Address(mem, start, k))
  }

  /** The walk in terms of memory alone: it starts at `start`, goes from each address to the frame pointer found
      there, and records the return address found there; short of the full depth it ends because the next address
      is invalid, or lies below the last, or holds a return address inside a segment. */
  ghost predicate FollowsMemory(
    mem: Memory, start: nat, segments: Segments, depth: nat, visited: seq<nat>, bt: seq<nat>)
  {
    && |bt| <= |visited|
    && (forall i :: 0 <= i < |bt| ==> bt[i] == mem.read(visited[i]).ret)
    && (visited != [] ==> visited[0] == start)
    && (forall i :: 0 < i < |visited| ==> visited[i] == mem.read(visited[i - 1]).framePointer)
    && (|bt| < depth ==> EndsAt(mem, segments, NextAddress(mem, start, visited, |bt|), visited[..|bt|]))
  }

  function NextAddress(mem: Memory, start: nat, visited: seq<nat>, n: nat): nat
    requires n <= |visited|
  {
    if n == 0 then start else mem.read(visited[n - 1]).framePointer
  }

  ghost predicate EndsAt(mem: Memory, segments: Segments, next: nat, before: seq<nat>) {
    || !mem.valid(next)
    || (before != [] && next < before[|before| - 1])
    || exists k :: 0 <= k < |segments| && segments[k].0 < mem.read(next).ret < segments[k].1
  }

  lemma {:induction false} ChainFollowsMemory(
    mem: Memory, start: nat, segments: Segments, depth: nat, visited: seq<nat>, bt: seq<nat>)
    requires visited == ChainAddresses(mem, start, |visited|) && bt == Ips(mem, start, |bt|) && |bt| <= |visited|
    requires LongestPrefix(mem, start, segments, depth, |bt|)
    ensures FollowsMemory(mem, start, segments, depth, visited, bt)
  {
    var n := |bt|;
    assert forall i :: 0 <= i < |visited| ==> visited[i] == Address(mem, start, i);
    forall i | 0 < i < |visited| ensures visited[i] == mem.read(visited[i - 1]).framePointer {
      assert visited[i] == Address(mem, start, i) && visited[i - 1] == Address(mem, start, i - 1);
    }
    forall i | 0 <= i < n ensures bt[i] == mem.read(visited[i]).ret {
      assert bt[i] == Ip(mem, start, i) && visited[i] == Address(mem, start, i);
    }
    if n < depth {
      assert !Recordable(mem, start, segments, n);
      assert NextAddress(mem, start, visited, n) == Address(mem, start, n);
      if n > 0 {
        assert visited[n - 1] == Address(mem, start, n - 1);
      }
    }
  }

  /** `n` links have been walked and recorded. */
  ghost predicate Walked(mem: Memory, start: nat, segments: Segments, n: nat, visited: seq<nat>, bt: seq<nat>) {
    && visited == ChainAddresses(mem, start, n) && bt == Ips(mem, start, n)
    && forall k :: 0 <= k < n ==> Recordable(mem, start, segments, k)
  }

  lemma {:induction false} WalkStep(
    mem: Memory, start: nat, segments: Segments, n: nat, visited: seq<nat>, bt: seq<nat>)
    requires Walked(mem, start, segments, n, visited, bt) && Recordable(mem, start, segments, n)
    ensures Walked(mem, start, segments, n + 1, visited + [Address(mem, start, n)], bt + [Ip(mem, start, n)])
  {
  }

  /** Where the walk stops: at a link that fails its checks, or one more visited that the callback refuses. */
  ghost predicate Stopped(mem: Memory, start: nat, segments: Segments, depth: nat, n: nat, visited: seq<nat>) {
    || (visited == ChainAddresses(mem, start, n) && !Passes(mem, start, n))
    || (visited == ChainAddresses(mem, start, n) + [Address(mem, start, n)] && Passes(mem, start, n)
      && (InSegments(segments, Ip(mem, start, n)) || n == depth))
  }

  lemma {:induction false} WalkDone(
    mem: Memory, start: nat, segments: Segments, depth: nat, n: nat, visited: seq<nat>, bt: seq<nat>)
    requires n <= depth && Walked(mem, start, segments, n, ChainAddresses(mem, start, n), bt)
    requires Stopped(mem, start, segments, depth, n, visited)
    ensures n <= |visited| <= n + 1 && |bt| == n
    ensures visited == ChainAddresses(mem, start, |visited|) && LongestPrefix(mem, start, segments, depth, n)
    ensures forall i :: 0 <= i < |visited| ==> mem.valid(visited[i])
    ensures forall i :: 0 < i < |visited| ==> visited[i - 1] <= visited[i]
    ensures FollowsMemory(mem, start, segments, depth, visited, bt)
  {
    forall i | 0 <= i < |visited| ensures mem.valid(visited[i]) && (i > 0 ==> visited[i - 1] <= visited[i]) {
      assert visited[i] == Address(mem, start, i);
      assert i < n ==> Recordable(mem, start, segments, i);
    }
    assert visited == ChainAddresses(mem, start, |visited|);
    ChainFollowsMemory(mem, start, segments, depth, visited, bt);
  }

  /** The closure the handler passes: drops a blocklisted frame, records others up to the depth. */
  class Recorder {
    const segments: Segments
    const depth: nat
    var bt: seq<nat>
    var index: nat
    ghost var calls: nat

    constructor (segments: Segments, depth: nat)
      ensures this.segments == segments && this.depth == depth && bt == [] && index == 0 && calls == 0
    {
      this.segments, this.depth, bt, index, calls := segments, depth, [], 0, 0;
    }

    method OnFrame(ip: nat) returns (goOn: bool)
      modifies this
      ensures goOn <==> !InSegments(segments, ip) && old(index) < depth
      ensures bt == old(bt) + (if goOn then [ip] else [])
      ensures index == old(index) + (if goOn then 1 else 0) && calls == old(calls) + 1
    {
      calls := calls + 1;
      var blocked := IsBlocklisted(segments, ip);
      if blocked {
        return false;
      }
      if index < depth {
        bt := bt + [ip];
        index := index + 1;
        goOn := true;
      } else {
        goOn := false;
      }
    }
  }

  /** `Trace::trace`. `ucontext` holds the interrupted frame pointer, or nothing when it was null. The walk
      ends whatever memory looks like; it reads only validated addresses, in non-decreasing order; and it
      records the longest recordable prefix of the chain. */
  method Trace(ucontext: Option<nat>, mem: Memory, rec: Recorder) returns (ghost visited: seq<nat>)
    requires !mem.valid(0)
    requires rec.bt == [] && rec.index == 0 && rec.calls == 0
    modifies rec
    ensures ucontext == None ==> visited == [] && rec.bt == [] && rec.calls == 0
    ensures forall i :: 0 <= i < |visited| ==> mem.valid(visited[i])
    ensures forall i :: 0 < i < |visited| ==> visited[i - 1] <= visited[i]
    ensures rec.calls == |visited| <= rec.depth + 1
    ensures ucontext.Some? ==>
      && visited == ChainAddresses(mem, ucontext.value, |visited|)
      && rec.bt == Ips(mem, ucontext.value, |rec.bt|)
      && LongestPrefix(mem, ucontext.value, rec.segments, rec.depth, |rec.bt|)
    ensures ucontext.Some? ==> FollowsMemory(mem, ucontext.value, rec.segments, rec.depth, visited, rec.bt)
  {
    visited := [];
    if ucontext == None {
      return;
    }
    ghost var start, n := ucontext.value, 0;
    var framePointer := ucontext.value;
    var lastFramePointer := 0;
    while true
      invariant rec.index == rec.calls == n <= rec.depth
      invariant framePointer == Address(mem, start, n)
      invariant lastFramePointer == if n == 0 then 0 else Address(mem, start, n - 1)
      invariant n > 0 ==> lastFramePointer != 0
      invariant Walked(mem, start, rec.segments, n, visited, rec.bt)
      decreases rec.depth - n
    {
      if lastFramePointer != 0 && framePointer < lastFramePointer {
        break;
      }
      if !mem.valid(framePointer) {
        break;
      }
      lastFramePointer := framePointer;
      assert Passes(mem, start, n);
      var goOn := rec.OnFrame(mem.read(framePointer).ret);
      if !goOn {
        visited := visited + [framePointer];
        assert Stopped(mem, start, rec.segments, rec.depth, n, visited);
        break;
      }
      WalkStep(mem, start, rec.segments, n, visited, rec.bt[..n]);
      visited := visited + [framePointer];
      n := n + 1;
      framePointer := mem.read(framePointer).framePointer;
    }
    WalkDone(mem, start, rec.segments, rec.depth, n, visited, rec.bt);
  }

  /** Equal successive pointers pass: on a frame that points to itself the walk's own checks never stop it,
      and the handler's callback records the same return address up to the full depth. */
  lemma {:induction false} SelfLoop(mem: Memory, start: nat, segments: Segments, depth: nat, k: nat)
    requires mem.valid(start) && mem.read(start).framePointer == start
    ensures Address(mem, start, k) == start && Passes(mem, start, k)
    ensures !InSegments(segments, mem.read(start).ret) ==> LongestPrefix(mem, start, segments, depth, depth)
  {
    LoopStays(mem, start, k);
    if k > 0 {
      LoopStays(mem, start, k - 1);
    }
    forall j | 0 <= j < depth && !InSegments(segments, mem.read(start).ret)
      ensures Recordable(mem, start, segments, j)
    {
      LoopStays(mem, start, j);
      if j > 0 {
        LoopStays(mem, start, j - 1);
      }
    }
  }

  lemma {:induction false} LoopStays(mem: Memory, start: nat, k: nat)
    requires mem.read(start).framePointer == start
    ensures Address(mem, start, k) == start
  {
    if k > 0 {
      LoopStays(mem, start, k - 1);
    }
  }
}
