/** Keys of the two reports: raw stacks as the handler takes them, and symbolized stacks. */
module Frames {
  import opened Entries
  import opened HashCounters
  import opened Numerals

  type Byte = b: int | 0 <= b < 256

  const MAX_THREAD_NAME := 16

  /** A captured frame. `symbolAddress` is the start of the enclosing function, as the unwinder reports it. */
  datatype RawFrame = RawFrame(ip: nat, symbolAddress: nat)

  datatype UnresolvedFrames = UnresolvedFrames(
    frames: seq<RawFrame>, threadName: seq<Byte>, threadNameLength: nat, threadId: nat, timestamp: int)

  /** A stack as it is made of these frames and this thread: the name's bytes, and zeros after them. */
  ghost predicate IsNew(u: UnresolvedFrames, frames: seq<RawFrame>, tn: seq<Byte>, threadId: nat, timestamp: int) {
    && |u.threadName| == MAX_THREAD_NAME && u.threadNameLength == |tn| <= MAX_THREAD_NAME
    && u.threadName[..|tn|] == tn
    && (forall i :: |tn| <= i < MAX_THREAD_NAME ==> u.threadName[i] == 0)
    && u.frames == frames && u.threadId == threadId && u.timestamp == timestamp
  }

  /** `UnresolvedFrames::new`. No value where the slice copy panics: on a name longer than the array. */
  method NewUnresolvedFrames(frames: seq<RawFrame>, tn: seq<Byte>, threadId: nat, timestamp: int)
    returns (u: Option<UnresolvedFrames>)
    ensures u.None? <==> |tn| > MAX_THREAD_NAME
    ensures u.Some? ==> IsNew(u.value, frames, tn, threadId, timestamp)
  {
    var name := new Byte[MAX_THREAD_NAME](_ => 0);
    if |tn| > name.Length {
      return None;
    }
    for i := 0 to |tn|
      invariant name[..i] == tn[..i]
      invariant forall j :: i <= j < MAX_THREAD_NAME ==> name[j] == 0
    {
      name[i] := tn[i];
    }
    u := Some(UnresolvedFrames(frames, name[..], |tn|, threadId, timestamp));
  }

  /** `UnresolvedFrames::eq`: thread id and symbol addresses decide; name, timestamp and raw ip do not. */
  predicate SameStack(a: UnresolvedFrames, b: UnresolvedFrames) {
    if a.threadId != b.threadId || |a.frames| != |b.frames| then false
    else forall i :: 0 <= i < |a.frames| ==> a.frames[i].symbolAddress == b.frames[i].symbolAddress
  }

  datatype StackId = StackId(addresses: seq<nat>, threadId: nat)

  function Addresses(frames: seq<RawFrame>): seq<nat> {
    seq(|frames|, i requires 0 <= i < |frames| => frames[i].symbolAddress)
  }

  function IdOfStack(u: UnresolvedFrames): StackId {
    StackId(Addresses(u.frames), u.threadId)
  }

  /** A hasher absorbs words one by one and is asked for its value at the end. */
  datatype Hasher<!H> = Hasher(init: H, absorb: (H, nat) -> H, finish: H -> nat)

  function Absorb<H>(h: Hasher<H>, state: H, words: seq<nat>): H
    decreases |words|
  {
    if |words| == 0 then state else Absorb(h, h.absorb(state, words[0]), words[1..])
  }

  /** `Hash for UnresolvedFrames`: each symbol address, then the thread id. */
  function FedWith<H>(h: Hasher<H>, u: UnresolvedFrames): H {
    h.absorb(Absorb(h, h.init, Addresses(u.frames)), u.threadId)
  }

  function HashOfStack<H>(h: Hasher<H>): UnresolvedFrames -> nat {
    (u: UnresolvedFrames) => h.finish(FedWith(h, u))
  }

  /** A hasher that keeps what it is fed; `finish` may be anything. */
  function Recording(finish: seq<nat> -> nat): Hasher<seq<nat>> {
    Hasher([], (fed: seq<nat>, word: nat) => fed + [word], finish)
  }

  lemma {:induction false} RecordingKeeps(finish: seq<nat> -> nat, fed: seq<nat>, words: seq<nat>)
    ensures Absorb(Recording(finish), fed, words) == fed + words
    decreases |words|
  {
    if |words| == 0 {
      assert fed + words == fed;
    } else {
      RecordingKeeps(finish, fed + [words[0]], words[1..]);
      assert fed + [words[0]] + words[1..] == fed + words;
    }
  }

  /** The hash is made of all that equality looks at, and of nothing else: a hasher is fed the same words for two
      stacks if and only if they are equal, namely the symbol addresses and the thread id. */
  lemma {:induction false} HashSeesWhatEqSees(finish: seq<nat> -> nat, a: UnresolvedFrames, b: UnresolvedFrames)
    ensures FedWith(Recording(finish), a) == FedWith(Recording(finish), b) <==> SameStack(a, b)
    ensures HashOfStack(Recording(finish))(a) == finish(FedWith(Recording(finish), a))
    ensures |FedWith(Recording(finish), a)| == |a.frames| + 1
    ensures forall i :: 0 <= i < |a.frames| ==> FedWith(Recording(finish), a)[i] == a.frames[i].symbolAddress
    ensures FedWith(Recording(finish), a)[|a.frames|] == a.threadId
  {
    var x, y := Addresses(a.frames), Addresses(b.frames);
    RecordingKeeps(finish, [], x);
    RecordingKeeps(finish, [], y);
    assert [] + x == x && [] + y == y;
    SameStackIff(a, b);
    if x + [a.threadId] == y + [b.threadId] {
      assert |x| == |y|;
      assert x == (x + [a.threadId])[..|x|] && y == (y + [b.threadId])[..|y|];
      assert a.threadId == (x + [a.threadId])[|x|] && b.threadId == (y + [b.threadId])[|y|];
    }
  }

  function StackKeys<H>(h: Hasher<H>, buckets: nat): Keys<UnresolvedFrames, StackId> {
    Keys(IdOfStack, HashOfStack(h), buckets)
  }

  /** The hand-written equality is the equality of `IdOfStack`, hence an equivalence. */
  lemma {:induction false} SameStackIff(a: UnresolvedFrames, b: UnresolvedFrames)
    ensures SameStack(a, b) <==> IdOfStack(a) == IdOfStack(b)
  {
    var sa, sb := Addresses(a.frames), Addresses(b.frames);
    if IdOfStack(a) == IdOfStack(b) {
      forall i | 0 <= i < |a.frames| ensures a.frames[i].symbolAddress == b.frames[i].symbolAddress {
        assert sa[i] == sb[i];
      }
    }
  }

  /** Equal stacks hash equally under every hasher: what the collector's table rests on. */
  lemma {:induction false} StackKeysLawful<H>(h: Hasher<H>, buckets: nat)
    requires buckets > 0
    ensures Lawful(StackKeys(h, buckets))
  {
    var keys := StackKeys(h, buckets);
    forall a, b | keys.id(a) == keys.id(b) ensures keys.hash(a) == keys.hash(b) {
      assert IdOfStack(a) == IdOfStack(b);
      assert FedWith(h, a) == FedWith(h, b);
    }
  }

  datatype Symbol = Symbol(
    name: Option<seq<Byte>>, addr: Option<nat>, lineno: Option<nat>, filename: Option<string>)

  /** "Unknown" in ASCII. */
  const UNKNOWN: seq<Byte> := [85, 110, 107, 110, 111, 119, 110]

  /** The two foreign text functions: lossy UTF-8 decoding and demangling. */
  datatype Text = Text(lossy: seq<Byte> -> string, demangle: string -> string)

  function RawName(s: Symbol): seq<Byte> {
    if s.name.Some? then s.name.value else UNKNOWN
  }

  function Name(text: Text, s: Symbol): string {
    text.demangle(text.lossy(RawName(s)))
  }

  function SysName(text: Text, s: Symbol): string {
    text.lossy(RawName(s))
  }

  function Filename(s: Symbol): string {
    if s.filename.Some? then s.filename.value else "Unknown"
  }

  function Lineno(s: Symbol): nat {
    if s.lineno.Some? then s.lineno.value else 0
  }

  datatype Frames = Frames(frames: seq<seq<Symbol>>, threadName: string, threadId: nat, timestamp: int)

  /** All symbols of a stack, frame after frame, leaf first. */
  function StackSymbols(frames: seq<seq<Symbol>>): seq<Symbol> {
    Flatten(frames)
  }

  /** Symbol `j` of frame `i` comes after all symbols of the frames below it. */
  lemma {:induction false} StackSymbolsInOrder(frames: seq<seq<Symbol>>, i: nat, j: nat)
    requires i < |frames| && j < |frames[i]|
    ensures |StackSymbols(frames)| == LengthBefore(frames, |frames|)
    ensures LengthBefore(frames, i) + j < |StackSymbols(frames)|
    ensures StackSymbols(frames)[LengthBefore(frames, i) + j] == frames[i][j]
  {
    FlattenAt(frames, i, j);
  }

  function SymbolNames(text: Text, symbols: seq<Symbol>): seq<string> {
    seq(|symbols|, i requires 0 <= i < |symbols| => Name(text, symbols[i]))
  }

  function StackNames(text: Text, frames: seq<seq<Symbol>>): seq<string> {
    SymbolNames(text, StackSymbols(frames))
  }

  function RawNames(frame: seq<Symbol>): seq<seq<Byte>> {
    seq(|frame|, i requires 0 <= i < |frame| => RawName(frame[i]))
  }

  datatype FramesId = FramesId(names: seq<seq<seq<Byte>>>, threadName: string, threadId: nat, timestamp: int)

  function NamesOf(frames: seq<seq<Symbol>>): seq<seq<seq<Byte>>> {
    seq(|frames|, i requires 0 <= i < |frames| => RawNames(frames[i]))
  }

  function IdOfFrames(f: Frames): FramesId {
    FramesId(NamesOf(f.frames), f.threadName, f.threadId, f.timestamp)
  }

  /** What names a stack's thread: its name or, failing that, its number. */
  function ThreadNameOrId(f: Frames): string {
    if f.threadName != "" then f.threadName else Decimal(f.threadId)
  }

  /** The derived equality of `Frames`, over `Symbol`'s equality of raw names. */
  predicate SameFrames(a: Frames, b: Frames) {
    && |a.frames| == |b.frames|
    && (forall i :: 0 <= i < |a.frames| ==>
      && |a.frames[i]| == |b.frames[i]|
      && forall j :: 0 <= j < |a.frames[i]| ==> RawName(a.frames[i][j]) == RawName(b.frames[i][j]))
    && a.threadName == b.threadName && a.threadId == b.threadId && a.timestamp == b.timestamp
  }

  lemma {:induction false} SameFramesIff(a: Frames, b: Frames)
    ensures SameFrames(a, b) <==> IdOfFrames(a) == IdOfFrames(b)
  {
    if SameFrames(a, b) {
      forall i | 0 <= i < |a.frames| ensures IdOfFrames(a).names[i] == IdOfFrames(b).names[i] {
        assert RawNames(a.frames[i]) == RawNames(b.frames[i]);
      }
    }
    if IdOfFrames(a) == IdOfFrames(b) {
      assert |IdOfFrames(a).names| == |a.frames|;
      forall i | 0 <= i < |a.frames|
        ensures |a.frames[i]| == |b.frames[i]|
        ensures forall j :: 0 <= j < |a.frames[i]| ==> RawName(a.frames[i][j]) == RawName(b.frames[i][j])
      {
        assert RawNames(a.frames[i]) == IdOfFrames(a).names[i] == IdOfFrames(b).names[i] == RawNames(b.frames[i]);
        forall j | 0 <= j < |a.frames[i]| ensures RawName(a.frames[i][j]) == RawName(b.frames[i][j]) {
          assert RawNames(a.frames[i])[j] == RawNames(b.frames[i])[j];
        }
      }
    }
  }

  /** Symbol resolution, fixed while a report is built: the perf map first, then the unwinder's resolver. */
  datatype Resolver = Resolver(perfMap: nat -> Option<Symbol>, symbolize: RawFrame -> seq<Symbol>)

  function Resolve(r: Resolver, frame: RawFrame): seq<Symbol> {
    match r.perfMap(frame.ip)
    case Some(s) => [s]
    case None => r.symbolize(frame)
  }

  function ResolveAll(r: Resolver, frames: seq<RawFrame>): seq<seq<Symbol>> {
    seq(|frames|, i requires 0 <= i < |frames| => Resolve(r, frames[i]))
  }

  predicate IsHandler(text: Text, frame: seq<Symbol>) {
    exists i :: 0 <= i < |frame| && Name(text, frame[i]) in ["perf_signal_handler", "_perf_signal_handler"]
  }

  /** The frames that are looked at: all but the successors of the handler frames that are looked at. */
  predicate Examined(text: Text, frames: seq<seq<Symbol>>, j: nat)
    requires j < |frames|
  {
    j == 0 || !(Examined(text, frames, j - 1) && IsHandler(text, frames[j - 1]))
  }

  predicate Kept(text: Text, frames: seq<seq<Symbol>>, j: nat)
    requires j < |frames|
  {
    Examined(text, frames, j) && !IsHandler(text, frames[j]) && |frames[j]| > 0
  }

  /** The frames at the kept positions among the first `n`, in order. */
  function KeptFrames(text: Text, frames: seq<seq<Symbol>>, n: nat): seq<seq<Symbol>>
    requires n <= |frames|
  {
    if n == 0 then []
    else KeptFrames(text, frames, n - 1) + (if Kept(text, frames, n - 1) then [frames[n - 1]] else [])
  }

  function Filtered(text: Text, frames: seq<seq<Symbol>>): seq<seq<Symbol>> {
    KeptFrames(text, frames, |frames|)
  }

  /** What examining frame `n` does to the frames kept so far, and which frame is examined next. */
  lemma {:induction false} ExamineStep(text: Text, frames: seq<seq<Symbol>>, n: nat)
    requires n < |frames| && Examined(text, frames, n)
    ensures IsHandler(text, frames[n]) ==>
      && KeptFrames(text, frames, n + 1) == KeptFrames(text, frames, n)
      && (n + 1 < |frames| ==> KeptFrames(text, frames, n + 2) == KeptFrames(text, frames, n))
      && (n + 2 < |frames| ==> Examined(text, frames, n + 2))
    ensures !IsHandler(text, frames[n]) ==>
      && KeptFrames(text, frames, n + 1)
        == KeptFrames(text, frames, n) + (if |frames[n]| > 0 then [frames[n]] else [])
      && (n + 1 < |frames| ==> Examined(text, frames, n + 1))
  {
    if IsHandler(text, frames[n]) && n + 1 < |frames| {
      assert !Examined(text, frames, n + 1);
    }
  }

  /** `Frames::from`: the iterator is advanced once more past the frame after a handler frame. */
  method FromUnresolved(u: UnresolvedFrames, r: Resolver, text: Text) returns (f: Frames)
    requires u.threadNameLength <= |u.threadName|
    ensures f == Rendered(u, r, text)
    ensures f.threadName == text.lossy(u.threadName[..u.threadNameLength])
    ensures f.threadId == u.threadId && f.timestamp == u.timestamp
  {
    var fs: seq<seq<Symbol>> := [];
    ghost var all := ResolveAll(r, u.frames);
    var next := 0;
    while next < |u.frames|
      invariant next <= |u.frames|
      invariant next < |u.frames| ==> Examined(text, all, next)
      invariant fs == KeptFrames(text, all, next)
    {
      var symbols := Resolve(r, u.frames[next]);
      assert symbols == all[next];
      ExamineStep(text, all, next);
      next := next + 1;
      if IsHandler(text, symbols) {
        if next < |u.frames| {
          next := next + 1;
        }
        continue;
      }
      if |symbols| > 0 {
        fs := fs + [symbols];
      }
    }
    f := Frames(fs, text.lossy(u.threadName[..u.threadNameLength]), u.threadId, u.timestamp);
  }

  function NameBytes(u: UnresolvedFrames): seq<Byte> {
    if u.threadNameLength <= |u.threadName| then u.threadName[..u.threadNameLength] else u.threadName
  }

  function Rendered(u: UnresolvedFrames, r: Resolver, text: Text): Frames {
    Frames(Filtered(text, ResolveAll(r, u.frames)), text.lossy(NameBytes(u)), u.threadId, u.timestamp)
  }

  /** What the handler was given for the thread is what the symbolized stack shows of it: the name, decoded, with
      nothing of the zeros after it, the number and the time. */
  lemma {:induction false} ThreadSurvives(u: UnresolvedFrames, frames: seq<RawFrame>, tn: seq<Byte>, threadId: nat,
      timestamp: int, r: Resolver, text: Text)
    requires IsNew(u, frames, tn, threadId, timestamp)
    ensures var f := Rendered(u, r, text);
      f.threadName == text.lossy(tn) && f.threadId == threadId && f.timestamp == timestamp
  {
  }

  /** A frame the perf map knows is that one symbol, whatever the unwinder would say; another is what it says. */
  lemma {:induction false} PerfMapWins(r: Resolver, frames: seq<RawFrame>, i: nat)
    requires i < |frames|
    ensures |ResolveAll(r, frames)| == |frames|
    ensures r.perfMap(frames[i].ip).Some? ==> ResolveAll(r, frames)[i] == [r.perfMap(frames[i].ip).value]
    ensures r.perfMap(frames[i].ip).None? ==> ResolveAll(r, frames)[i] == r.symbolize(frames[i])
  {
  }

  ghost predicate StrictlyIncreasing(s: seq<nat>) {
    forall i, j :: 0 <= i < j < |s| ==> s[i] < s[j]
  }

  /** The positions that survive. */
  function KeptPositions(text: Text, frames: seq<seq<Symbol>>, n: nat): seq<nat>
    requires n <= |frames|
  {
    if n == 0 then []
    else KeptPositions(text, frames, n - 1) + (if Kept(text, frames, n - 1) then [n - 1] else [])
  }

  lemma {:induction false} KeptPositionsMeaning(text: Text, frames: seq<seq<Symbol>>, n: nat)
    requires n <= |frames|
    ensures var ps := KeptPositions(text, frames, n);
      && StrictlyIncreasing(ps)
      && (forall i :: 0 <= i < |ps| ==> ps[i] < n)
      && (forall j :: 0 <= j < n ==> (j in ps <==> Kept(text, frames, j)))
  {
    if n > 0 {
      KeptPositionsMeaning(text, frames, n - 1);
    }
  }

  lemma {:induction false} KeptFramesAtPositions(text: Text, frames: seq<seq<Symbol>>, n: nat)
    requires n <= |frames|
    ensures var ps := KeptPositions(text, frames, n);
      && |KeptFrames(text, frames, n)| == |ps|
      && forall i :: 0 <= i < |ps| ==> ps[i] < n && KeptFrames(text, frames, n)[i] == frames[ps[i]]
  {
    if n > 0 {
      KeptFramesAtPositions(text, frames, n - 1);
    }
  }

  /** How many handler frames stand directly before frame `j`. */
  function HandlersBefore(text: Text, frames: seq<seq<Symbol>>, j: nat): nat
    requires j < |frames|
  {
    if j == 0 || !IsHandler(text, frames[j - 1]) then 0 else 1 + HandlersBefore(text, frames, j - 1)
  }

  /** A frame is looked at exactly when an even number of handler frames stands directly before it. */
  lemma {:induction false} ExaminedIffEven(text: Text, frames: seq<seq<Symbol>>, j: nat)
    requires j < |frames|
    ensures Examined(text, frames, j) <==> HandlersBefore(text, frames, j) % 2 == 0
  {
    if j > 0 && IsHandler(text, frames[j - 1]) {
      ExaminedIffEven(text, frames, j - 1);
    }
  }

  /** Some symbol of the frame demangles to one of the handler's two names. */
  ghost predicate NamesHandler(text: Text, frame: seq<Symbol>) {
    exists s :: s in frame &&
      (Name(text, s) == "perf_signal_handler" || Name(text, s) == "_perf_signal_handler")
  }

  lemma {:induction false} HandlerByName(text: Text, frame: seq<Symbol>)
    ensures IsHandler(text, frame) <==> NamesHandler(text, frame)
  {
    if IsHandler(text, frame) {
      var i :| 0 <= i < |frame| && Name(text, frame[i]) in ["perf_signal_handler", "_perf_signal_handler"];
      assert frame[i] in frame;
    }
    if NamesHandler(text, frame) {
      var s :| s in frame && (Name(text, s) == "perf_signal_handler" || Name(text, s) == "_perf_signal_handler");
      var i :| 0 <= i < |frame| && frame[i] == s;
      assert Name(text, frame[i]) in ["perf_signal_handler", "_perf_signal_handler"];
    }
  }

  /** The filter is order-preserving; it leaves no handler frame and no empty frame. It keeps exactly the frames
      that are no handler's and not empty and have an even number of handler frames directly before them. */
  lemma {:induction false} FilterMeaning(text: Text, frames: seq<seq<Symbol>>) returns (ps: seq<nat>)
    ensures StrictlyIncreasing(ps) && |ps| == |Filtered(text, frames)|
    ensures forall i :: 0 <= i < |ps| ==> ps[i] < |frames| && Filtered(text, frames)[i] == frames[ps[i]]
    ensures forall i :: 0 <= i < |ps| ==>
      !NamesHandler(text, Filtered(text, frames)[i]) && Filtered(text, frames)[i] != []
    ensures forall j :: 0 <= j < |frames| ==> (j in ps <==> Kept(text, frames, j))
    ensures forall j :: 0 <= j < |frames| ==> (j in ps <==>
      !NamesHandler(text, frames[j]) && frames[j] != [] && HandlersBefore(text, frames, j) % 2 == 0)
    ensures forall j :: 0 <= j < |frames| && j !in ps ==>
      || IsHandler(text, frames[j])
      || frames[j] == []
      || (j > 0 && IsHandler(text, frames[j - 1]) && Examined(text, frames, j - 1))
  {
    ps := KeptPositions(text, frames, |frames|);
    KeptPositionsMeaning(text, frames, |frames|);
    KeptFramesAtPositions(text, frames, |frames|);
    forall i | 0 <= i < |ps| ensures Kept(text, frames, ps[i]) {
      assert ps[i] in ps;
    }
    forall j | 0 <= j < |frames|
      ensures IsHandler(text, frames[j]) <==> NamesHandler(text, frames[j])
      ensures Examined(text, frames, j) <==> HandlersBefore(text, frames, j) % 2 == 0
    {
      HandlerByName(text, frames[j]);
      ExaminedIffEven(text, frames, j);
    }
  }

  /** Frames without handler frames and empty frames pass unchanged. */
  lemma {:induction false} FilterOfClean(text: Text, frames: seq<seq<Symbol>>, n: nat)
    requires n <= |frames|
    requires forall i :: 0 <= i < |frames| ==> !IsHandler(text, frames[i]) && frames[i] != []
    ensures KeptFrames(text, frames, n) == frames[..n]
  {
    if n > 0 {
      FilterOfClean(text, frames, n - 1);
    }
  }

  lemma {:induction false} FilterIdempotent(text: Text, frames: seq<seq<Symbol>>)
    ensures Filtered(text, Filtered(text, frames)) == Filtered(text, frames)
  {
    var ps := FilterMeaning(text, frames);
    var once := Filtered(text, frames);
    forall i | 0 <= i < |once| ensures !IsHandler(text, once[i]) {
      HandlerByName(text, once[i]);
    }
    FilterOfClean(text, once, |once|);
    assert once[..|once|] == once;
  }

  /** The raw names a symbolized stack shows: those of its frames that pass the filter. */
  function ShownNames(u: UnresolvedFrames, r: Resolver, text: Text): seq<seq<seq<Byte>>> {
    NamesOf(Filtered(text, ResolveAll(r, u.frames)))
  }

  /** Agreement on what stack equality ignores and a symbolized stack shows: the names, as far as they depend
      on where in a function a frame stopped, the decoded thread name, and the time. */
  predicate ShowSame(r: Resolver, text: Text, u: UnresolvedFrames, v: UnresolvedFrames) {
    && ShownNames(u, r, text) == ShownNames(v, r, text)
    && text.lossy(NameBytes(u)) == text.lossy(NameBytes(v)) && u.timestamp == v.timestamp
  }

  /** Equal raw stacks stay equal once symbolized if and only if they show the same names, thread name and time. */
  lemma {:induction false} EqualStacksRenderAlikeIff(u: UnresolvedFrames, v: UnresolvedFrames, r: Resolver, text: Text)
    requires SameStack(u, v)
    ensures SameFrames(Rendered(u, r, text), Rendered(v, r, text)) <==> ShowSame(r, text, u, v)
  {
    SameFramesIff(Rendered(u, r, text), Rendered(v, r, text));
  }

  /** A frame's names depend on its function alone; lines and addresses may depend on the instruction. */
  ghost predicate NamesByFunction(r: Resolver) {
    forall x: RawFrame, y: RawFrame :: x.symbolAddress == y.symbolAddress ==>
      RawNames(Resolve(r, x)) == RawNames(Resolve(r, y))
  }

  /** The filter looks at names only. */
  lemma {:induction false} FilterSeesNames(text: Text, a: seq<seq<Symbol>>, b: seq<seq<Symbol>>, n: nat)
    requires NamesOf(a) == NamesOf(b) && n <= |a|
    ensures |a| == |b| && NamesOf(KeptFrames(text, a, n)) == NamesOf(KeptFrames(text, b, n))
    ensures n < |a| ==> (Examined(text, a, n) <==> Examined(text, b, n))
  {
    assert |NamesOf(a)| == |a| && |NamesOf(b)| == |b|;
    if n > 0 {
      FilterSeesNames(text, a, b, n - 1);
      FrameSeenByNames(text, a, b, n - 1);
      assert NamesOf(KeptFrames(text, a, n - 1) + [a[n - 1]])
        == NamesOf(KeptFrames(text, a, n - 1)) + [RawNames(a[n - 1])];
      assert NamesOf(KeptFrames(text, b, n - 1) + [b[n - 1]])
        == NamesOf(KeptFrames(text, b, n - 1)) + [RawNames(b[n - 1])];
      assert forall s: seq<seq<Symbol>> :: s + [] == s;
    }
  }

  lemma {:induction false} FrameSeenByNames(text: Text, a: seq<seq<Symbol>>, b: seq<seq<Symbol>>, i: nat)
    requires NamesOf(a) == NamesOf(b) && i < |a| == |b|
    ensures RawNames(a[i]) == RawNames(b[i]) && |a[i]| == |b[i]|
    ensures IsHandler(text, a[i]) <==> IsHandler(text, b[i])
  {
    assert NamesOf(a)[i] == NamesOf(b)[i];
    var x, y := a[i], b[i];
    assert |RawNames(x)| == |x| && |RawNames(y)| == |y|;
    forall j | 0 <= j < |x| ensures Name(text, x[j]) == Name(text, y[j]) {
      assert RawNames(x)[j] == RawNames(y)[j];
    }
  }

  lemma {:induction false} EqualStacksShowEqualNames(u: UnresolvedFrames, v: UnresolvedFrames, r: Resolver, text: Text)
    requires NamesByFunction(r) && SameStack(u, v)
    ensures ShownNames(u, r, text) == ShownNames(v, r, text)
  {
    var a, b := ResolveAll(r, u.frames), ResolveAll(r, v.frames);
    forall i | 0 <= i < |a| ensures NamesOf(a)[i] == NamesOf(b)[i] {
      assert u.frames[i].symbolAddress == v.frames[i].symbolAddress;
    }
    assert NamesOf(a) == NamesOf(b);
    FilterSeesNames(text, a, b, |a|);
  }

  /** Symbols that know the instruction: the call inlined at instruction 1 shows as one more symbol. */
  function Inlining(): Resolver {
    var inner := Symbol(Some([66]), None, None, None);
    var outer := Symbol(Some([65]), None, None, None);
    Resolver(_ => None, (frame: RawFrame) => if frame.ip == 1 then [inner, outer] else [outer])
  }

  /** Equal stacks of one name and one time that are unequal once symbolized: stack equality ignores where in a
      function a frame stopped, and inlined calls show it. */
  lemma {:induction false} InliningTellsApart(text: Text, u: UnresolvedFrames)
    requires u.frames == [RawFrame(0, 0)]
    requires text.demangle(text.lossy([65])) == "A" && text.demangle(text.lossy([66])) == "B"
    ensures var v := u.(frames := [RawFrame(1, 0)]);
      SameStack(u, v) && !SameFrames(Rendered(u, Inlining(), text), Rendered(v, Inlining(), text))
  {
    var v := u.(frames := [RawFrame(1, 0)]);
    var a, b := ResolveAll(Inlining(), u.frames), ResolveAll(Inlining(), v.frames);
    FilterOfClean(text, a, 1);
    FilterOfClean(text, b, 1);
    assert Filtered(text, a) == a && Filtered(text, b) == b;
    assert |a[0]| == 1 && |b[0]| == 2;
  }
}
