/** `Report::pprof`: the tables of profile.proto, built from a report, and how a consumer reads them. */
module Pprof {
  import opened Entries
  import opened Frames
  import opened Numerals
  import opened Reports

  const SAMPLES := "samples"
  const COUNT := "count"
  const CPU := "cpu"
  const NANOSECONDS := "nanoseconds"
  const THREAD := "thread"
  const SECOND := 1_000_000_000

  /** The messages of the format, as far as the encoder fills them. Strings are indices into the string table. */
  datatype Function = Function(id: nat, name: nat, systemName: nat, filename: nat)
  datatype Line = Line(functionId: nat, line: nat)
  datatype Location = Location(id: nat, lines: seq<Line>)
  datatype Label = Label(key: nat, str: nat)
  datatype Sample = Sample(locationIds: seq<nat>, values: seq<int>, labels: seq<Label>)
  datatype ValueType = ValueType(ty: nat, unit: nat)
  datatype Profile = Profile(
    sampleTypes: seq<ValueType>, samples: seq<Sample>, strings: seq<string>, functions: seq<Function>,
    locations: seq<Location>, periodType: ValueType, period: int)

  // ---- Reading a profile, by the rules of the format alone ----

  function StringAt(p: Profile, i: nat): Option<string> {
    if i < |p.strings| then Some(p.strings[i]) else None
  }

  function FindLocation(ls: seq<Location>, id: nat): Option<Location> {
    if |ls| == 0 then None else if ls[0].id == id then Some(ls[0]) else FindLocation(ls[1..], id)
  }

  function FindFunction(fs: seq<Function>, id: nat): Option<Function> {
    if |fs| == 0 then None else if fs[0].id == id then Some(fs[0]) else FindFunction(fs[1..], id)
  }

  /** What a location says of a frame. */
  datatype FrameInfo = FrameInfo(name: string, systemName: string, filename: string, line: nat)

  function ReadFrame(p: Profile, locationId: nat): Option<FrameInfo> {
    match FindLocation(p.locations, locationId)
    case None => None
    case Some(l) =>
      if |l.lines| != 1 then None
      else
        match FindFunction(p.functions, l.lines[0].functionId)
        case None => None
        case Some(f) =>
          match (StringAt(p, f.name), StringAt(p, f.systemName), StringAt(p, f.filename))
          case (Some(n), Some(s), Some(file)) => Some(FrameInfo(n, s, file, l.lines[0].line))
          case _ => None
  }

  // ---- What the encoder is to write ----

  function InfoOf(text: Text, s: Symbol): FrameInfo {
    FrameInfo(Name(text, s), SysName(text, s), Filename(s), Lineno(s))
  }

  /** The first symbol of that demangled name. */
  function FirstNamed(text: Text, symbols: seq<Symbol>, name: string): Option<Symbol> {
    if |symbols| == 0 then None
    else
      match FirstNamed(text, symbols[..|symbols| - 1], name)
      case Some(s) => Some(s)
      case None => if Name(text, symbols[|symbols| - 1]) == name then Some(symbols[|symbols| - 1]) else None
  }

  /** Rust's integer division, which truncates toward zero. */
  function TruncDiv(a: int, b: int): int
    requires b != 0
  {
    if (a >= 0) == (b > 0) then Abs(a) / Abs(b) else -(Abs(a) / Abs(b))
  }

  function Abs(a: int): nat { if a < 0 then -a else a }

  /** The quotient's size is rounded down, and its sign is that of the exact quotient. */
  lemma {:induction false} TruncDivMeaning(a: int, b: int)
    requires b != 0
    ensures var q := TruncDiv(a, b);
      && Abs(b) * Abs(q) <= Abs(a) < Abs(b) * (Abs(q) + 1)
      && (q > 0 ==> (a > 0 <==> b > 0)) && (q < 0 ==> (a > 0 <==> b < 0))
  {
    DivisionBounds(Abs(a), Abs(b));
    QuotientIsNatural(Abs(a), Abs(b));
  }

  lemma {:induction false} QuotientIsNatural(a: nat, b: nat)
    requires b > 0
    ensures a / b >= 0 && (a == 0 ==> a / b == 0)
  {
  }

  // ---- The string table ----

  ghost predicate HasStringsOf(dedup: set<string>, text: Text, f: Frames) {
    && ThreadNameOrId(f) in dedup
    && forall i, j :: 0 <= i < |f.frames| && 0 <= j < |f.frames[i]| ==> HasSymbol(dedup, text, f.frames[i][j])
  }

  ghost predicate HasSymbol(dedup: set<string>, text: Text, s: Symbol) {
    Name(text, s) in dedup && SysName(text, s) in dedup && Filename(s) in dedup
  }

  /** `s` names the stack's thread, or is the name, system name or file of one of its symbols. */
  ghost predicate IsStringOf(s: string, text: Text, f: Frames) {
    || s == ThreadNameOrId(f)
    || exists i, j :: 0 <= i < |f.frames| && 0 <= j < |f.frames[i]| && IsStringOfSymbol(s, text, f.frames[i][j])
  }

  ghost predicate IsStringOfSymbol(s: string, text: Text, symbol: Symbol) {
    s == Name(text, symbol) || s == SysName(text, symbol) || s == Filename(symbol)
  }

  /** One stack's strings: all of them and nothing else. */
  method StringsOf(text: Text, f: Frames) returns (dedup: set<string>)
    ensures HasStringsOf(dedup, text, f)
    ensures forall s :: s in dedup ==> IsStringOf(s, text, f)
  {
    dedup := {ThreadNameOrId(f)};
    for i := 0 to |f.frames|
      invariant ThreadNameOrId(f) in dedup
      invariant forall s :: s in dedup ==> IsStringOf(s, text, f)
      invariant forall k, j :: 0 <= k < i && 0 <= j < |f.frames[k]| ==> HasSymbol(dedup, text, f.frames[k][j])
    {
      for n := 0 to |f.frames[i]|
        invariant ThreadNameOrId(f) in dedup
        invariant forall s :: s in dedup ==> IsStringOf(s, text, f)
        invariant forall k, j :: 0 <= k < i && 0 <= j < |f.frames[k]| ==> HasSymbol(dedup, text, f.frames[k][j])
        invariant forall j :: 0 <= j < n ==> HasSymbol(dedup, text, f.frames[i][j])
      {
        var symbol := f.frames[i][n];
        dedup := dedup + {Name(text, symbol), SysName(text, symbol), Filename(symbol)};
      }
    }
  }

  ghost predicate IsStringOfReport(s: string, text: Text, data: Tally<Frames, FramesId>) {
    exists d :: d in data && IsStringOf(s, text, data[d].item)
  }

  const FIXED := {SAMPLES, COUNT, CPU, NANOSECONDS, THREAD}

  /** All strings of the report and the five fixed ones, and nothing else; the keys are met in any order. */
  method CollectStrings(text: Text, data: Tally<Frames, FramesId>) returns (dedup: set<string>)
    ensures forall d :: d in data ==> HasStringsOf(dedup, text, data[d].item)
    ensures FIXED <= dedup
    ensures forall s :: s in dedup ==> s in FIXED || IsStringOfReport(s, text, data)
  {
    dedup := {};
    var rest := data.Keys;
    while rest != {}
      invariant rest <= data.Keys
      invariant forall s :: s in dedup ==> IsStringOfReport(s, text, data)
      invariant forall d :: d in data && d !in rest ==> HasStringsOf(dedup, text, data[d].item)
      decreases rest
    {
      var d :| d in rest;
      var more := StringsOf(text, data[d].item);
      dedup := dedup + more;
      rest := rest - {d};
    }
    dedup := dedup + FIXED;
  }

  /** The table: the empty string first, then each string of the set once, in any order, and nothing else. */
  ghost predicate IsTableOf(strTbl: seq<string>, dedup: set<string>) {
    && |strTbl| > 0 && strTbl[0] == ""
    && (forall s :: s in dedup <==> s in strTbl[1..])
    && (forall i, j :: 1 <= i < j < |strTbl| ==> strTbl[i] != strTbl[j])
  }

  method StringTable(dedup: set<string>) returns (strTbl: seq<string>)
    ensures IsTableOf(strTbl, dedup) && |strTbl| == |dedup| + 1
  {
    strTbl := [""];
    var rest := dedup;
    while rest != {}
      invariant rest <= dedup && IsTableOf(strTbl, dedup - rest)
      invariant |strTbl| + |rest| == |dedup| + 1
      decreases rest
    {
      var s :| s in rest;
      assert (strTbl + [s])[1..] == strTbl[1..] + [s];
      strTbl := strTbl + [s];
      rest := rest - {s};
    }
  }

  /** Every string of the table has an index at which it stands; the last one, should it stand there twice. */
  ghost predicate Indexes(strings: map<string, nat>, strTbl: seq<string>) {
    && (forall s :: s in strTbl ==> s in strings)
    && (forall s :: s in strings ==> strings[s] < |strTbl| && strTbl[strings[s]] == s)
  }

  method StringIndex(strTbl: seq<string>) returns (strings: map<string, nat>)
    ensures Indexes(strings, strTbl)
  {
    strings := map[];
    for i := 0 to |strTbl|
      invariant forall j :: 0 <= j < i ==> strTbl[j] in strings
      invariant forall s :: s in strings ==> strings[s] < i && strTbl[strings[s]] == s
    {
      strings := strings[strTbl[i] := i];
    }
  }

  /** The three steps together: an index for every string the encoder will ask for. */
  method Strings(text: Text, data: Tally<Frames, FramesId>) returns (strTbl: seq<string>, strings: map<string, nat>)
    ensures |strTbl| > 0 && strTbl[0] == "" && Indexes(strings, strTbl)
    ensures SAMPLES in strings && COUNT in strings && CPU in strings && NANOSECONDS in strings && THREAD in strings
    ensures forall d :: d in data ==> HasStringsOf(strings.Keys, text, data[d].item)
  {
    var dedup := CollectStrings(text, data);
    strTbl := StringTable(dedup);
    strings := StringIndex(strTbl);
    assert forall s :: s in dedup ==> s in strTbl[1..];
    assert dedup <= strings.Keys;
    assert FIXED <= strings.Keys;
    forall d | d in data ensures HasStringsOf(strings.Keys, text, data[d].item) {
      assert HasStringsOf(dedup, text, data[d].item);
    }
  }

  // ---- Functions and locations ----

  datatype Tables = Tables(functions: map<string, nat>, fnTbl: seq<Function>, locTbl: seq<Location>)

  /** Function and location number `i + 1` describe `info`. */
  ghost predicate Describes(f: Function, l: Location, i: nat, info: FrameInfo, strTbl: seq<string>) {
    && f.id == i + 1
    && l == Location(i + 1, [Line(i + 1, info.line)])
    && f.name < |strTbl| && strTbl[f.name] == info.name
    && f.systemName < |strTbl| && strTbl[f.systemName] == info.systemName
    && f.filename < |strTbl| && strTbl[f.filename] == info.filename
  }

  /** `name` is numbered if it was met, and its number describes the first symbol of that name. */
  ghost predicate NameOk(t: Tables, seen: seq<Symbol>, strTbl: seq<string>, text: Text, name: string) {
    && (name in t.functions <==> FirstNamed(text, seen, name).Some?)
    && (name in t.functions ==>
      && 1 <= t.functions[name] <= |t.fnTbl| == |t.locTbl|
      && Describes(t.fnTbl[t.functions[name] - 1], t.locTbl[t.functions[name] - 1], t.functions[name] - 1,
        InfoOf(text, FirstNamed(text, seen, name).value), strTbl))
  }

  /** Function number `i + 1` is the number of its own name. */
  ghost predicate IndexOk(t: Tables, strTbl: seq<string>, i: nat) {
    && i < |t.fnTbl| && t.fnTbl[i].name < |strTbl|
    && strTbl[t.fnTbl[i].name] in t.functions && t.functions[strTbl[t.fnTbl[i].name]] == i + 1
  }

  /** The tables after meeting the symbols `seen`: one function and one location per name, numbered from 1. */
  ghost predicate TablesOk(t: Tables, seen: seq<Symbol>, strTbl: seq<string>, text: Text) {
    && |t.fnTbl| == |t.locTbl|
    && (forall name :: NameOk(t, seen, strTbl, text, name))
    && (forall i :: 0 <= i < |t.fnTbl| ==> IndexOk(t, strTbl, i))
  }

  lemma {:induction false} FirstNamedMeaning(text: Text, symbols: seq<Symbol>, name: string)
    ensures FirstNamed(text, symbols, name).Some? ==> Name(text, FirstNamed(text, symbols, name).value) == name
    ensures FirstNamed(text, symbols, name).Some? <==>
      exists i :: 0 <= i < |symbols| && Name(text, symbols[i]) == name
  {
    if |symbols| > 0 {
      var init := symbols[..|symbols| - 1];
      FirstNamedMeaning(text, init, name);
      if i :| 0 <= i < |symbols| && Name(text, symbols[i]) == name {
        assert i < |init| ==> Name(text, init[i]) == name;
      }
    }
  }

  lemma {:induction false} FirstNamedAppend(text: Text, seen: seq<Symbol>, s: Symbol, name: string)
    ensures FirstNamed(text, seen + [s], name) ==
      if FirstNamed(text, seen, name).Some? then FirstNamed(text, seen, name)
      else if Name(text, s) == name then Some(s) else None
  {
    assert (seen + [s])[..|seen|] == seen;
  }

  /** The loop body for one symbol. */
  method Intern(t: Tables, s: Symbol, strings: map<string, nat>, text: Text,
      ghost seen: seq<Symbol>, ghost strTbl: seq<string>)
    returns (u: Tables, id: nat)
    requires TablesOk(t, seen, strTbl, text) && Indexes(strings, strTbl)
    requires Name(text, s) in strings && SysName(text, s) in strings && Filename(s) in strings
    ensures TablesOk(u, seen + [s], strTbl, text)
    ensures Name(text, s) in u.functions && u.functions[Name(text, s)] == id
    ensures forall name :: name in t.functions ==> name in u.functions && u.functions[name] == t.functions[name]
  {
    var name := Name(text, s);
    assert NameOk(t, seen, strTbl, text, name);
    u, id := t, |t.fnTbl| + 1;
    if name in t.functions {
      id := t.functions[name];
    } else {
      var f := Function(id, strings[name], strings[SysName(text, s)], strings[Filename(s)]);
      var l := Location(id, [Line(id, Lineno(s))]);
      u := Tables(t.functions[name := id], t.fnTbl + [f], t.locTbl + [l]);
      assert Describes(f, l, id - 1, InfoOf(text, s), strTbl);
    }
    forall n ensures NameOk(u, seen + [s], strTbl, text, n) {
      assert NameOk(t, seen, strTbl, text, n);
      FirstNamedAppend(text, seen, s, n);
    }
    forall i | 0 <= i < |u.fnTbl| ensures IndexOk(u, strTbl, i) {
      assert i < |t.fnTbl| ==> IndexOk(t, strTbl, i);
    }
  }

  /** Location ids `locs` stand for the names of `symbols`, one by one. */
  ghost predicate Refer(functions: map<string, nat>, locs: seq<nat>, symbols: seq<Symbol>, text: Text) {
    && |locs| == |symbols|
    && forall j :: 0 <= j < |locs| ==>
      Name(text, symbols[j]) in functions && functions[Name(text, symbols[j])] == locs[j]
  }

  /** `functions` only grows. */
  ghost predicate Extends(before: map<string, nat>, after: map<string, nat>) {
    forall name :: name in before ==> name in after && after[name] == before[name]
  }

  /** The inner loop: one frame. */
  method EncodeFrame(t: Tables, locs: seq<nat>, frame: seq<Symbol>, strings: map<string, nat>, text: Text,
      ghost seen: seq<Symbol>, ghost met: seq<Symbol>, ghost strTbl: seq<string>)
    returns (u: Tables, more: seq<nat>)
    requires TablesOk(t, seen, strTbl, text) && Indexes(strings, strTbl) && Refer(t.functions, locs, met, text)
    requires forall j :: 0 <= j < |frame| ==> HasSymbol(strings.Keys, text, frame[j])
    ensures TablesOk(u, seen + frame, strTbl, text)
    ensures Extends(t.functions, u.functions) && Refer(u.functions, more, met + frame, text)
  {
    u, more := t, locs;
    ghost var now, names := seen, met;
    for n := 0 to |frame|
      invariant now == seen + frame[..n] && names == met + frame[..n]
      invariant TablesOk(u, now, strTbl, text)
      invariant Extends(t.functions, u.functions) && Refer(u.functions, more, names, text)
    {
      assert HasSymbol(strings.Keys, text, frame[n]);
      var id;
      u, id := Intern(u, frame[n], strings, text, now, strTbl);
      more := more + [id];
      now, names := now + [frame[n]], names + [frame[n]];
    }
    assert frame[..|frame|] == frame;
  }

  /** The loops over one stack. */
  method EncodeStack(t: Tables, frames: seq<seq<Symbol>>, strings: map<string, nat>, text: Text,
      ghost seen: seq<Symbol>, ghost strTbl: seq<string>)
    returns (u: Tables, locs: seq<nat>)
    requires TablesOk(t, seen, strTbl, text) && Indexes(strings, strTbl)
    requires forall i, j :: 0 <= i < |frames| && 0 <= j < |frames[i]| ==> HasSymbol(strings.Keys, text, frames[i][j])
    ensures TablesOk(u, seen + StackSymbols(frames), strTbl, text)
    ensures Extends(t.functions, u.functions) && Refer(u.functions, locs, StackSymbols(frames), text)
  {
    u, locs := t, [];
    ghost var now, met := seen, [];
    for i := 0 to |frames|
      invariant met == StackSymbols(frames[..i]) && now == seen + met
      invariant TablesOk(u, now, strTbl, text)
      invariant Extends(t.functions, u.functions) && Refer(u.functions, locs, met, text)
    {
      u, locs := EncodeFrame(u, locs, frames[i], strings, text, now, met, strTbl);
      assert frames[..i + 1][..i] == frames[..i];
      now, met := now + frames[i], met + frames[i];
    }
    assert frames[..|frames|] == frames;
  }

  // ---- The whole profile ----

  /** All symbols of the report, stacks in iteration order. */
  function SymbolsOf(data: Tally<Frames, FramesId>, order: seq<FramesId>): seq<Symbol>
    requires forall i :: 0 <= i < |order| ==> order[i] in data
  {
    if |order| == 0 then []
    else SymbolsOf(data, order[..|order| - 1]) + StackSymbols(data[order[|order| - 1]].item.frames)
  }

  /** The sample written for one report entry, under the function numbering `functions`. */
  ghost predicate SampleOk(s: Sample, e: Entry<Frames>, functions: map<string, nat>, strTbl: seq<string>,
      text: Text, frequency: int)
    requires frequency != 0
  {
    && Refer(functions, s.locationIds, StackSymbols(e.item.frames), text)
    && s.values == [e.count, TruncDiv(e.count * SECOND, frequency)]
    && |s.labels| == 1
    && s.labels[0].key < |strTbl| && strTbl[s.labels[0].key] == THREAD
    && s.labels[0].str < |strTbl| && strTbl[s.labels[0].str] == ThreadNameOrId(e.item)
  }

  ghost predicate TypeOk(v: ValueType, strTbl: seq<string>, ty: string, unit: string) {
    v.ty < |strTbl| && v.unit < |strTbl| && strTbl[v.ty] == ty && strTbl[v.unit] == unit
  }

  method EncodeSample(t: Tables, e: Entry<Frames>, strings: map<string, nat>, text: Text, frequency: int,
      ghost seen: seq<Symbol>, ghost strTbl: seq<string>)
    returns (u: Tables, sample: Sample)
    requires frequency != 0
    requires TablesOk(t, seen, strTbl, text) && Indexes(strings, strTbl)
    requires HasStringsOf(strings.Keys, text, e.item) && THREAD in strings
    ensures TablesOk(u, seen + StackSymbols(e.item.frames), strTbl, text)
    ensures Extends(t.functions, u.functions) && SampleOk(sample, e, u.functions, strTbl, text, frequency)
  {
    var locs;
    u, locs := EncodeStack(t, e.item.frames, strings, text, seen, strTbl);
    var threadName := Label(strings[THREAD], strings[ThreadNameOrId(e.item)]);
    sample := Sample(locs, [e.count, TruncDiv(e.count * SECOND, frequency)], [threadName]);
  }

  /** `order` has met every key but those of `rest`, each once. */
  ghost predicate Visited(order: seq<FramesId>, rest: set<FramesId>, data: Tally<Frames, FramesId>) {
    && (forall i, j :: 0 <= i < j < |order| ==> order[i] != order[j])
    && (forall i :: 0 <= i < |order| ==> order[i] in data && order[i] !in rest)
    && (forall d :: d in data && d !in rest ==> d in order)
  }

  ghost predicate SamplesOk(samples: seq<Sample>, order: seq<FramesId>, data: Tally<Frames, FramesId>,
      functions: map<string, nat>, strTbl: seq<string>, text: Text, frequency: int)
    requires frequency != 0
  {
    && |samples| == |order|
    && forall i :: 0 <= i < |order| ==>
      order[i] in data && SampleOk(samples[i], data[order[i]], functions, strTbl, text, frequency)
  }

  lemma {:induction false} SamplesAppend(samples: seq<Sample>, sample: Sample, order: seq<FramesId>, d: FramesId,
      data: Tally<Frames, FramesId>, before: map<string, nat>, functions: map<string, nat>,
      strTbl: seq<string>, text: Text, frequency: int)
    requires frequency != 0 && d in data && Extends(before, functions)
    requires SamplesOk(samples, order, data, before, strTbl, text, frequency)
    requires SampleOk(sample, data[d], functions, strTbl, text, frequency)
    ensures SamplesOk(samples + [sample], order + [d], data, functions, strTbl, text, frequency)
  {
    forall i | 0 <= i < |order| ensures SampleOk(samples[i], data[order[i]], functions, strTbl, text, frequency) {
      assert SampleOk(samples[i], data[order[i]], before, strTbl, text, frequency);
    }
  }

  lemma {:induction false} SymbolsAppend(data: Tally<Frames, FramesId>, order: seq<FramesId>, d: FramesId)
    requires d in data && forall i :: 0 <= i < |order| ==> order[i] in data
    ensures SymbolsOf(data, order + [d]) == SymbolsOf(data, order) + StackSymbols(data[d].item.frames)
  {
    assert (order + [d])[..|order|] == order;
  }

  /** The loop over the report, in any order. A frequency of zero would be a division by zero; the timer that
      supplies it has divided by it before. */
  method EncodeSamples(data: Tally<Frames, FramesId>, strings: map<string, nat>, text: Text, frequency: int,
      ghost strTbl: seq<string>)
    returns (t: Tables, samples: seq<Sample>, ghost order: seq<FramesId>)
    requires frequency != 0 && Indexes(strings, strTbl) && THREAD in strings
    requires forall d :: d in data ==> HasStringsOf(strings.Keys, text, data[d].item)
    ensures Enumerates(order, data)
    ensures TablesOk(t, SymbolsOf(data, order), strTbl, text)
    ensures SamplesOk(samples, order, data, t.functions, strTbl, text, frequency)
  {
    t, samples, order := Tables(map[], [], []), [], [];
    ghost var seen := [];
    var rest := data.Keys;
    while rest != {}
      invariant rest <= data.Keys && Visited(order, rest, data)
      invariant seen == SymbolsOf(data, order)
      invariant TablesOk(t, seen, strTbl, text)
      invariant SamplesOk(samples, order, data, t.functions, strTbl, text, frequency)
      decreases rest
    {
      var d :| d in rest;
      ghost var before := t.functions;
      var sample;
      t, sample := EncodeSample(t, data[d], strings, text, frequency, seen, strTbl);
      SamplesAppend(samples, sample, order, d, data, before, t.functions, strTbl, text, frequency);
      SymbolsAppend(data, order, d);
      seen := seen + StackSymbols(data[d].item.frames);
      samples, order, rest := samples + [sample], order + [d], rest - {d};
    }
  }

  /** The numbering: ids are exactly 1..n, and location i has the one line that points at function i. */
  ghost predicate Numbered(p: Profile) {
    && |p.functions| == |p.locations|
    && forall i :: 0 <= i < |p.functions| ==>
      && p.functions[i].id == i + 1 && p.locations[i].id == i + 1
      && |p.locations[i].lines| == 1 && p.locations[i].lines[0].functionId == i + 1
  }

  /** A sample read back: for each frame, the first symbol of the report with that frame's name. */
  ghost predicate ReadsBack(p: Profile, s: Sample, e: Entry<Frames>, all: seq<Symbol>, text: Text) {
    var symbols := StackSymbols(e.item.frames);
    && |s.locationIds| == |symbols|
    && (forall j :: 0 <= j < |symbols| ==>
      && FirstNamed(text, all, Name(text, symbols[j])).Some?
      && ReadFrame(p, s.locationIds[j])
        == Some(InfoOf(text, FirstNamed(text, all, Name(text, symbols[j])).value))
      && ReadFrame(p, s.locationIds[j]).value.name == Name(text, symbols[j]))
    && |s.labels| == 1
    && StringAt(p, s.labels[0].key) == Some(THREAD)
    && StringAt(p, s.labels[0].str) == Some(ThreadNameOrId(e.item))
  }

  lemma {:induction false} FindById(ls: seq<Location>, fs: seq<Function>, first: nat, id: nat)
    requires |ls| == |fs| && first < id <= first + |ls|
    requires forall i :: 0 <= i < |ls| ==> ls[i].id == fs[i].id == first + i + 1
    ensures FindLocation(ls, id) == Some(ls[id - first - 1])
    ensures FindFunction(fs, id) == Some(fs[id - first - 1])
  {
    if id > first + 1 {
      FindById(ls[1..], fs[1..], first + 1, id);
    }
  }

  /** In numbered tables a described location reads as what it describes. */
  lemma {:induction false} ReadDescribed(p: Profile, id: nat, info: FrameInfo)
    requires Numbered(p) && 1 <= id <= |p.functions|
    requires Describes(p.functions[id - 1], p.locations[id - 1], id - 1, info, p.strings)
    ensures ReadFrame(p, id) == Some(info)
  {
    FindById(p.locations, p.functions, 0, id);
  }

  lemma {:induction false} TablesNumbered(t: Tables, seen: seq<Symbol>, p: Profile, text: Text)
    requires TablesOk(t, seen, p.strings, text) && p.functions == t.fnTbl && p.locations == t.locTbl
    ensures Numbered(p)
  {
    forall i | 0 <= i < |p.functions|
      ensures p.functions[i].id == i + 1 && p.locations[i] == Location(i + 1, p.locations[i].lines)
      ensures |p.locations[i].lines| == 1 && p.locations[i].lines[0].functionId == i + 1
    {
      assert IndexOk(t, p.strings, i);
      var name := p.strings[t.fnTbl[i].name];
      assert NameOk(t, seen, p.strings, text, name);
      assert Describes(t.fnTbl[i], t.locTbl[i], i, InfoOf(text, FirstNamed(text, seen, name).value), p.strings);
    }
  }

  lemma {:induction false} SampleReadsBack(
    t: Tables, all: seq<Symbol>, p: Profile, s: Sample, e: Entry<Frames>, text: Text, frequency: int)
    requires TablesOk(t, all, p.strings, text) && p.functions == t.fnTbl && p.locations == t.locTbl
    requires frequency != 0 && SampleOk(s, e, t.functions, p.strings, text, frequency)
    ensures ReadsBack(p, s, e, all, text)
  {
    TablesNumbered(t, all, p, text);
    var symbols := StackSymbols(e.item.frames);
    forall j | 0 <= j < |symbols|
      ensures FirstNamed(text, all, Name(text, symbols[j])).Some?
      ensures ReadFrame(p, s.locationIds[j])
        == Some(InfoOf(text, FirstNamed(text, all, Name(text, symbols[j])).value))
      ensures ReadFrame(p, s.locationIds[j]).value.name == Name(text, symbols[j])
    {
      var name := Name(text, symbols[j]);
      FirstNamedMeaning(text, all, name);
      assert NameOk(t, all, p.strings, text, name);
      ReadDescribed(p, s.locationIds[j], InfoOf(text, FirstNamed(text, all, name).value));
    }
  }

  /** A profile of `data`: numbered tables, and for each entry a sample that reads back. */
  ghost predicate Encoded(p: Profile, data: Tally<Frames, FramesId>, order: seq<FramesId>, text: Text) {
    && Numbered(p)
    && Enumerates(order, data) && |p.samples| == |order|
    && forall i :: 0 <= i < |order| ==> ReadsBack(p, p.samples[i], data[order[i]], SymbolsOf(data, order), text)
  }

  /** `Report::pprof`. `order` is the order in which the hash map happened to be iterated. */
  method Encode(data: Tally<Frames, FramesId>, text: Text, frequency: int)
    returns (p: Profile, ghost order: seq<FramesId>)
    requires frequency != 0
    ensures |p.strings| > 0 && p.strings[0] == ""
    ensures Encoded(p, data, order, text)
    ensures forall i :: 0 <= i < |order| ==>
      p.samples[i].values == [data[order[i]].count, TruncDiv(data[order[i]].count * 1_000_000_000, frequency)]
    ensures |p.sampleTypes| == 2 && TypeOk(p.sampleTypes[0], p.strings, "samples", "count")
    ensures TypeOk(p.sampleTypes[1], p.strings, "cpu", "nanoseconds") && p.periodType == p.sampleTypes[1]
    ensures p.period == TruncDiv(1_000_000_000, frequency)
  {
    var strTbl, strings := Strings(text, data);
    var t, samples;
    t, samples, order := EncodeSamples(data, strings, text, frequency, strTbl);
    var samplesValue := ValueType(strings[SAMPLES], strings[COUNT]);
    var timeValue := ValueType(strings[CPU], strings[NANOSECONDS]);
    p := Profile([samplesValue, timeValue], samples, strTbl, t.fnTbl, t.locTbl, timeValue,
      TruncDiv(SECOND, frequency));
    TablesNumbered(t, SymbolsOf(data, order), p, text);
    forall i | 0 <= i < |order| ensures ReadsBack(p, p.samples[i], data[order[i]], SymbolsOf(data, order), text) {
      assert SampleOk(samples[i], data[order[i]], t.functions, strTbl, text, frequency);
      SampleReadsBack(t, SymbolsOf(data, order), p, samples[i], data[order[i]], text, frequency);
    }
  }

  // ---- What is kept: names and thread, of every stack that has the sample's key ----

  lemma {:induction false} RawNamesDecideNames(text: Text, a: seq<seq<Symbol>>, b: seq<seq<Symbol>>)
    requires NamesOf(a) == NamesOf(b)
    ensures StackNames(text, a) == StackNames(text, b)
  {
    assert |NamesOf(a)| == |a| && |NamesOf(b)| == |b|;
    if |a| > 0 {
      var n := |a| - 1;
      assert NamesOf(a[..n]) == NamesOf(a)[..n] && NamesOf(b[..n]) == NamesOf(b)[..n];
      RawNamesDecideNames(text, a[..n], b[..n]);
      FrameSeenByNames(text, a, b, n);
      forall j | 0 <= j < |a[n]| ensures Name(text, a[n][j]) == Name(text, b[n][j]) {
        assert RawNames(a[n])[j] == RawNames(b[n])[j];
      }
      NamesAppend(text, a);
      NamesAppend(text, b);
    }
  }

  lemma {:induction false} NamesAppend(text: Text, frames: seq<seq<Symbol>>)
    requires |frames| > 0
    ensures var n := |frames| - 1;
      var last := frames[n];
      StackNames(text, frames)
        == StackNames(text, frames[..n]) + SymbolNames(text, last)
  {
  }

  /** Read by the rules of the format, the sample shows the names and the thread of `f`. */
  ghost predicate Shows(p: Profile, s: Sample, text: Text, f: Frames) {
    var names := StackNames(text, f.frames);
    && |s.locationIds| == |names|
    && (forall j :: 0 <= j < |names| ==>
      ReadFrame(p, s.locationIds[j]).Some? && ReadFrame(p, s.locationIds[j]).value.name == names[j])
    && |s.labels| == 1
    && StringAt(p, s.labels[0].key) == Some(THREAD)
    && StringAt(p, s.labels[0].str) == Some(ThreadNameOrId(f))
  }

  /** The label of every sample of a profile is the thread's name or, where it has none, the thread's number. */
  lemma {:induction false} LabelShowsThread(
    p: Profile, data: Tally<Frames, FramesId>, order: seq<FramesId>, text: Text, i: nat)
    requires Encoded(p, data, order, text) && i < |order|
    ensures |p.samples[i].labels| == 1 && StringAt(p, p.samples[i].labels[0].key) == Some("thread")
    ensures StringAt(p, p.samples[i].labels[0].str).Some?
    ensures var shown, key := StringAt(p, p.samples[i].labels[0].str).value, data[order[i]].item;
      && (key.threadName != "" ==> shown == key.threadName)
      && (key.threadName == "" ==> ParseInt(shown) == key.threadId)
  {
    assert ReadsBack(p, p.samples[i], data[order[i]], SymbolsOf(data, order), text);
    IntReadsBack(data[order[i]].item.threadId);
  }

  /** What a location says of a symbol, field by field; a missing name or file is "Unknown", a missing line 0. */
  ghost predicate SaysOf(info: FrameInfo, text: Text, s: Symbol) {
    && (s.name.Some? ==> info.name == text.demangle(text.lossy(s.name.value)))
    && (s.name.Some? ==> info.systemName == text.lossy(s.name.value))
    && (s.name.None? ==> info.name == text.demangle(text.lossy([85, 110, 107, 110, 111, 119, 110])))
    && (s.name.None? ==> info.systemName == text.lossy([85, 110, 107, 110, 111, 119, 110]))
    && (s.filename.Some? ==> info.filename == s.filename.value)
    && (s.filename.None? ==> info.filename == "Unknown")
    && (s.lineno.Some? ==> info.line == s.lineno.value)
    && (s.lineno.None? ==> info.line == 0)
  }

  lemma {:induction false} InfoSaysOf(text: Text, s: Symbol)
    ensures SaysOf(InfoOf(text, s), text, s)
  {
  }

  lemma {:induction false} FaithfulFields(
    p: Profile, s: Sample, e: Entry<Frames>, text: Text, frame: nat, j: nat)
    requires SampleIsFaithful(p, s, e, text) && frame < |e.item.frames| && j < |e.item.frames[frame]|
    ensures var n := LengthBefore(e.item.frames, frame) + j;
      && n < |s.locationIds| && ReadFrame(p, s.locationIds[n]).Some?
      && SaysOf(ReadFrame(p, s.locationIds[n]).value, text, e.item.frames[frame][j])
  {
    StackSymbolsInOrder(e.item.frames, frame, j);
    FaithfulAt(p, s, e, text, LengthBefore(e.item.frames, frame) + j);
    InfoSaysOf(text, e.item.frames[frame][j]);
  }

  /** In a profile whose names decide, location `n` of a sample says of the `n`-th symbol of the stack, counted
      frame by frame from the leaf, what that symbol's own fields hold. */
  lemma {:induction false} FieldsReadBack(p: Profile, data: Tally<Frames, FramesId>, order: seq<FramesId>,
      text: Text, i: nat, frame: nat, j: nat)
    requires Encoded(p, data, order, text) && NamesDecide(text, SymbolsOf(data, order)) && i < |order|
    requires frame < |data[order[i]].item.frames| && j < |data[order[i]].item.frames[frame]|
    ensures var n := LengthBefore(data[order[i]].item.frames, frame) + j;
      && n < |p.samples[i].locationIds| && ReadFrame(p, p.samples[i].locationIds[n]).Some?
      && SaysOf(ReadFrame(p, p.samples[i].locationIds[n]).value, text, data[order[i]].item.frames[frame][j])
  {
    AllReadsBackIff(p, data, order, text);
    FaithfulProfileFields(p, data, order, text, i, frame, j);
  }

  lemma {:induction false} FaithfulProfileFields(p: Profile, data: Tally<Frames, FramesId>, order: seq<FramesId>,
      text: Text, i: nat, frame: nat, j: nat)
    requires |p.samples| == |order| && forall k :: 0 <= k < |order| ==> order[k] in data
    requires ProfileIsFaithful(p, data, order, text) && i < |order|
    requires frame < |data[order[i]].item.frames| && j < |data[order[i]].item.frames[frame]|
    ensures var n := LengthBefore(data[order[i]].item.frames, frame) + j;
      && n < |p.samples[i].locationIds| && ReadFrame(p, p.samples[i].locationIds[n]).Some?
      && SaysOf(ReadFrame(p, p.samples[i].locationIds[n]).value, text, data[order[i]].item.frames[frame][j])
  {
    FaithfulFields(p, p.samples[i], data[order[i]], text, frame, j);
  }

  lemma {:induction false} FaithfulAt(p: Profile, s: Sample, e: Entry<Frames>, text: Text, n: nat)
    requires SampleIsFaithful(p, s, e, text) && n < |StackSymbols(e.item.frames)|
    ensures n < |s.locationIds|
    ensures ReadFrame(p, s.locationIds[n]) == Some(InfoOf(text, StackSymbols(e.item.frames)[n]))
  {
  }

  /** A sample shows every stack that is equal to its entry's key. */
  lemma {:induction false} SampleShows(
    p: Profile, s: Sample, e: Entry<Frames>, all: seq<Symbol>, text: Text, f: Frames)
    requires ReadsBack(p, s, e, all, text) && IdOfFrames(f) == IdOfFrames(e.item)
    ensures Shows(p, s, text, f)
  {
    RawNamesDecideNames(text, f.frames, e.item.frames);
    assert IdOfFrames(f).threadName == IdOfFrames(e.item).threadName;
    assert IdOfFrames(f).threadId == IdOfFrames(e.item).threadId;
    var names := StackNames(text, e.item.frames);
    forall j | 0 <= j < |names|
      ensures ReadFrame(p, s.locationIds[j]).Some? && ReadFrame(p, s.locationIds[j]).value.name == names[j]
    {
    }
  }

  // ---- What is lost: all but the name of a symbol whose name was met before ----

  lemma {:induction false} FirstNamedIsMet(text: Text, symbols: seq<Symbol>, name: string) returns (i: nat)
    requires FirstNamed(text, symbols, name).Some?
    ensures i < |symbols| && symbols[i] == FirstNamed(text, symbols, name).value
    ensures forall j :: 0 <= j < i ==> Name(text, symbols[j]) != name
  {
    var init := symbols[..|symbols| - 1];
    if FirstNamed(text, init, name).Some? {
      i := FirstNamedIsMet(text, init, name);
      assert forall j :: 0 <= j < i ==> init[j] == symbols[j];
    } else {
      i := |symbols| - 1;
      FirstNamedMeaning(text, init, name);
      forall j | 0 <= j < i ensures Name(text, symbols[j]) != name {
        assert Name(text, init[j]) != name;
      }
    }
  }

  /** What is read back for the symbol `s`. */
  function Recovered(text: Text, all: seq<Symbol>, s: Symbol): Option<FrameInfo> {
    match FirstNamed(text, all, Name(text, s))
    case Some(first) => Some(InfoOf(text, first))
    case None => None
  }

  /** Symbols of one demangled name agree on system name, file and line. */
  ghost predicate NamesDecide(text: Text, all: seq<Symbol>) {
    forall i, j :: 0 <= i < |all| && 0 <= j < |all| && Name(text, all[i]) == Name(text, all[j]) ==>
      InfoOf(text, all[i]) == InfoOf(text, all[j])
  }

  ghost predicate AllRecovered(text: Text, all: seq<Symbol>) {
    forall x :: x in all ==> Recovered(text, all, x) == Some(InfoOf(text, x))
  }

  lemma {:induction false} RecoveredIff(text: Text, all: seq<Symbol>)
    ensures AllRecovered(text, all) <==> NamesDecide(text, all)
  {
    if NamesDecide(text, all) {
      forall x | x in all ensures Recovered(text, all, x) == Some(InfoOf(text, x)) {
        var i :| 0 <= i < |all| && all[i] == x;
        FirstNamedMeaning(text, all, Name(text, x));
        var k := FirstNamedIsMet(text, all, Name(text, x));
        assert Name(text, all[k]) == Name(text, all[i]);
      }
    }
    if AllRecovered(text, all) {
      forall i, j | 0 <= i < |all| && 0 <= j < |all| && Name(text, all[i]) == Name(text, all[j])
        ensures InfoOf(text, all[i]) == InfoOf(text, all[j])
      {
        assert Recovered(text, all, all[i]) == Recovered(text, all, all[j]);
      }
    }
  }

  /** The symbols of a report are those of its stacks. */
  lemma {:induction false} SymbolOfSomeStack(data: Tally<Frames, FramesId>, order: seq<FramesId>, s: Symbol)
    requires forall i :: 0 <= i < |order| ==> order[i] in data
    ensures s in SymbolsOf(data, order)
      <==> exists i :: 0 <= i < |order| && s in StackSymbols(data[order[i]].item.frames)
  {
    if |order| > 0 {
      var init := order[..|order| - 1];
      SymbolOfSomeStack(data, init, s);
      if i :| 0 <= i < |order| && s in StackSymbols(data[order[i]].item.frames) {
        assert i < |init| ==> init[i] == order[i];
      }
      if i :| 0 <= i < |init| && s in StackSymbols(data[init[i]].item.frames) {
        assert init[i] == order[i];
      }
    }
  }

  /** Every field of every symbol of the entry `e` reads back from its sample. */
  ghost predicate SampleIsFaithful(p: Profile, s: Sample, e: Entry<Frames>, text: Text) {
    var symbols := StackSymbols(e.item.frames);
    && |s.locationIds| == |symbols|
    && forall j :: 0 <= j < |symbols| ==> ReadFrame(p, s.locationIds[j]) == Some(InfoOf(text, symbols[j]))
  }

  lemma {:induction false} FaithfulMeansRecovered(p: Profile, s: Sample, e: Entry<Frames>, all: seq<Symbol>, text: Text)
    requires ReadsBack(p, s, e, all, text)
    ensures SampleIsFaithful(p, s, e, text) <==>
      forall x :: x in StackSymbols(e.item.frames) ==> Recovered(text, all, x) == Some(InfoOf(text, x))
  {
    var symbols := StackSymbols(e.item.frames);
    assert forall j :: 0 <= j < |symbols| ==> ReadFrame(p, s.locationIds[j]) == Recovered(text, all, symbols[j]);
    if forall x :: x in symbols ==> Recovered(text, all, x) == Some(InfoOf(text, x)) {
      forall j | 0 <= j < |symbols| ensures ReadFrame(p, s.locationIds[j]) == Some(InfoOf(text, symbols[j])) {
        assert symbols[j] in symbols;
      }
    }
  }

  /** Every sample of the profile reads back in every field. */
  ghost predicate ProfileIsFaithful(p: Profile, data: Tally<Frames, FramesId>, order: seq<FramesId>, text: Text)
    requires |p.samples| == |order| && forall i :: 0 <= i < |order| ==> order[i] in data
  {
    forall i :: 0 <= i < |order| ==> SampleIsFaithful(p, p.samples[i], data[order[i]], text)
  }

  lemma {:induction false} FaithfulProfileRecovers(
    p: Profile, data: Tally<Frames, FramesId>, order: seq<FramesId>, text: Text)
    requires Encoded(p, data, order, text) && ProfileIsFaithful(p, data, order, text)
    ensures AllRecovered(text, SymbolsOf(data, order))
  {
    var all := SymbolsOf(data, order);
    forall x | x in all ensures Recovered(text, all, x) == Some(InfoOf(text, x)) {
      SymbolOfSomeStack(data, order, x);
      var i :| 0 <= i < |order| && x in StackSymbols(data[order[i]].item.frames);
      FaithfulMeansRecovered(p, p.samples[i], data[order[i]], all, text);
    }
  }

  lemma {:induction false} RecoveredProfileIsFaithful(
    p: Profile, data: Tally<Frames, FramesId>, order: seq<FramesId>, text: Text)
    requires Encoded(p, data, order, text) && AllRecovered(text, SymbolsOf(data, order))
    ensures ProfileIsFaithful(p, data, order, text)
  {
    var all := SymbolsOf(data, order);
    forall i | 0 <= i < |order| ensures SampleIsFaithful(p, p.samples[i], data[order[i]], text) {
      FaithfulMeansRecovered(p, p.samples[i], data[order[i]], all, text);
      forall x | x in StackSymbols(data[order[i]].item.frames)
        ensures Recovered(text, all, x) == Some(InfoOf(text, x))
      {
        SymbolOfSomeStack(data, order, x);
      }
    }
  }

  /** What a reader finds in the whole profile is, frame by frame and in every field, what the report held, if
      and only if symbols of one demangled name agree in the report. */
  lemma {:induction false} AllReadsBackIff(
    p: Profile, data: Tally<Frames, FramesId>, order: seq<FramesId>, text: Text)
    requires Encoded(p, data, order, text)
    ensures ProfileIsFaithful(p, data, order, text) <==> NamesDecide(text, SymbolsOf(data, order))
  {
    RecoveredIff(text, SymbolsOf(data, order));
    if ProfileIsFaithful(p, data, order, text) {
      FaithfulProfileRecovers(p, data, order, text);
    }
    if NamesDecide(text, SymbolsOf(data, order)) {
      RecoveredProfileIsFaithful(p, data, order, text);
    }
  }

  /** One function, called at line 1 and, below that, at line 2. */
  function TwoLines(): Frames {
    var first := Symbol(Some([102]), None, Some(1), None);
    Frames([[first], [first.(lineno := Some(2))]], "", 0, 0)
  }

  lemma {:induction false} OneKey<F, D>(order: seq<D>, data: Tally<F, D>, d: D)
    requires Enumerates(order, data) && data.Keys == {d}
    ensures order == [d]
  {
    OrderCounts(order, data);
    assert |data| == |data.Keys| == 1;
    assert order[0] in data.Keys;
  }

  lemma {:induction false} TwoSymbols(f: Frames, a: Symbol, b: Symbol)
    requires f.frames == [[a], [b]]
    ensures StackSymbols(f.frames) == [a, b]
  {
    assert f.frames[..1] == [[a]] && [[a]][..0] == [];
    assert StackSymbols([[a]]) == StackSymbols([]) + [a] == [a];
  }

  lemma {:induction false} FirstOfTwo(text: Text, a: Symbol, b: Symbol)
    requires Name(text, a) == Name(text, b)
    ensures FirstNamed(text, [a, b], Name(text, b)) == Some(a)
  {
    assert [a, b][..1] == [a] && [a][..0] == [];
    assert FirstNamed(text, [a], Name(text, b)) == Some(a);
  }

  lemma {:induction false} SymbolsOfOne(data: Tally<Frames, FramesId>, d: FramesId)
    requires d in data
    ensures SymbolsOf(data, [d]) == StackSymbols(data[d].item.frames)
  {
    SymbolsAppend(data, [], d);
    assert [] + [d] == [d];
    assert SymbolsOf(data, []) == [];
  }

  /** The second of two symbols of one name reads back as the first. */
  lemma {:induction false} SecondReads(p: Profile, s: Sample, e: Entry<Frames>, a: Symbol, b: Symbol, text: Text)
    requires e.item.frames == [[a], [b]] && Name(text, a) == Name(text, b)
    requires ReadsBack(p, s, e, [a, b], text)
    ensures |s.locationIds| == 2 && ReadFrame(p, s.locationIds[1]) == Some(InfoOf(text, a))
  {
    TwoSymbols(e.item, a, b);
    FirstOfTwo(text, a, b);
  }

  lemma {:induction false} SecondReadsAsFirst(
    p: Profile, f: Frames, count: int, order: seq<FramesId>, a: Symbol, b: Symbol, text: Text)
    requires f.frames == [[a], [b]] && Name(text, a) == Name(text, b)
    requires Encoded(p, map[IdOfFrames(f) := Entry(f, count)], order, text)
    ensures |p.samples| == 1 && |p.samples[0].locationIds| == 2
    ensures ReadFrame(p, p.samples[0].locationIds[1]) == Some(InfoOf(text, a))
  {
    var data := map[IdOfFrames(f) := Entry(f, count)];
    OneKey(order, data, IdOfFrames(f));
    SymbolsOfOne(data, IdOfFrames(f));
    TwoSymbols(f, a, b);
    SecondReads(p, p.samples[0], Entry(f, count), a, b, text);
  }

  /** Such a report loses a line, whatever the decoding: line 2 reads back as line 1. */
  lemma {:induction false} SecondLineIsLost(p: Profile, count: int, order: seq<FramesId>, text: Text)
    requires Encoded(p, map[IdOfFrames(TwoLines()) := Entry(TwoLines(), count)], order, text)
    ensures |p.samples| == 1 && |p.samples[0].locationIds| == 2
    ensures ReadFrame(p, p.samples[0].locationIds[1]).Some?
    ensures ReadFrame(p, p.samples[0].locationIds[1]).value.line == 1
    ensures Lineno(TwoLines().frames[1][0]) == 2
  {
    var f := TwoLines();
    SecondReadsAsFirst(p, f, count, order, f.frames[0][0], f.frames[1][0], text);
  }

  // ---- Values ----

  function ValueOf(count: int, frequency: int): int
    requires frequency != 0
  {
    TruncDiv(count * SECOND, frequency)
  }

  lemma {:induction false} DivisionBounds(a: nat, b: nat)
    requires b > 0
    ensures b * (a / b) <= a < b * (a / b + 1)
  {
  }

  lemma {:induction false} ProductSwaps(c: nat, f: nat, p: nat)
    ensures c * (f * p) == f * (c * p)
  {
  }

  lemma {:induction false} ProductKeepsOrder(c: nat, a: nat, b: nat)
    requires a <= b
    ensures c * a <= c * b && (c > 0 && a < b ==> c * a < c * b)
  {
  }

  lemma {:induction false} ProductBounds(c: nat, f: nat, p: nat, n: nat)
    requires c > 0 && f * p <= n < f * (p + 1)
    ensures f * (c * p) <= c * n < f * (c * (p + 1))
  {
    ProductKeepsOrder(c, f * p, n);
    ProductSwaps(c, f, p);
    ProductKeepsOrder(c, n, f * (p + 1));
    ProductSwaps(c, f, p + 1);
  }

  /** A sample's time is its count in whole periods, rounded down, and less than one more nanosecond each. */
  lemma {:induction false} ValueBounds(count: nat, frequency: nat)
    requires frequency > 0 && count > 0
    ensures var v := ValueOf(count, frequency);
      var period := TruncDiv(SECOND, frequency);
      && count * period <= v < count * (period + 1)
      && frequency * v <= count * 1_000_000_000 < frequency * v + frequency
  {
    var period, v := SECOND / frequency, count * SECOND / frequency;
    DivisionBounds(SECOND, frequency);
    DivisionBounds(count * SECOND, frequency);
    ProductBounds(count, frequency, period, SECOND);
    Cancel(frequency, count * period, v + 1);
    Cancel(frequency, v, count * (period + 1));
  }

  lemma {:induction false} Cancel(f: nat, a: nat, b: nat)
    requires f > 0 && f * a < f * b
    ensures a < b
  {
    assert f * a - f * b == f * (a - b);
  }

  function SumValues<K>(es: seq<Entry<K>>, frequency: int): int
    requires frequency != 0
  {
    if |es| == 0 then 0 else SumValues(es[..|es| - 1], frequency) + ValueOf(es[|es| - 1].count, frequency)
  }

  lemma {:induction false} Distributes(f: int, a: int, b: int)
    ensures f * (a + b) == f * a + f * b
  {
  }

  /** One sample's time, scaled back, is its count's whole seconds, short of them by less than a unit. */
  lemma {:induction false} ValueRounds(count: nat, frequency: nat)
    requires frequency > 0
    ensures frequency * ValueOf(count, frequency) <= count * SECOND
    ensures count * SECOND < frequency * ValueOf(count, frequency) + frequency
  {
    DivisionBounds(count * SECOND, frequency);
    Distributes(frequency, ValueOf(count, frequency), 1);
  }

  /** Summed over the samples, the time falls short of the total by less than a nanosecond per sample. */
  lemma {:induction false} SumValuesBounds<K>(es: seq<Entry<K>>, frequency: nat)
    requires frequency > 0 && AllPositive(es)
    ensures frequency * SumValues(es, frequency) <= Sum(es, All()) * SECOND
    ensures |es| > 0 ==> Sum(es, All()) * SECOND < frequency * (SumValues(es, frequency) + |es|)
  {
    if |es| > 0 {
      var init := es[..|es| - 1];
      var v, w := ValueOf(es[|es| - 1].count, frequency), SumValues(init, frequency);
      SumValuesBounds(init, frequency);
      ValueRounds(es[|es| - 1].count, frequency);
      Distributes(frequency, w, v);
      Distributes(frequency, w + |init|, v + 1);
      Distributes(frequency, v, 1);
      assert |init| == 0 ==> w == 0;
    }
  }

  const I32_MAX := 0x7fff_ffff
  const I64_MAX := 0x7fff_ffff_ffff_ffff

  /** While the total is within an i32, no product computed for a sample leaves an i64. */
  lemma {:induction false} NoOverflow<K>(es: seq<Entry<K>>, i: nat)
    requires AllPositive(es) && Sum(es, All()) <= I32_MAX && i < |es|
    ensures 0 < es[i].count <= Sum(es, All())
    ensures es[i].count * SECOND <= I64_MAX
  {
    var init := es[..|es| - 1];
    SumPositive(init, All());
    if i < |init| {
      NoOverflow(init, i);
    }
  }
}
