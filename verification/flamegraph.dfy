/** The folded-stack lines `flamegraph_with_options` hands to the renderer. */
module Flamegraphs {
  import opened Numerals
  import opened Frames

  function Reverse<T>(s: seq<T>): (r: seq<T>)
    ensures |r| == |s|
    ensures forall i :: 0 <= i < |s| ==> r[i] == s[|s| - 1 - i]
  {
    seq(|s|, i requires 0 <= i < |s| => s[|s| - 1 - i])
  }

  /** Thread, then the stack from its root to its leaf. */
  function Labels(text: Text, f: Frames): seq<string> {
    [ThreadNameOrId(f)] + Reverse(StackNames(text, f.frames))
  }

  /** Each label with the separator after it. */
  function Terminated(labels: seq<string>): string {
    if |labels| == 0 then "" else Terminated(labels[..|labels| - 1]) + labels[|labels| - 1] + ";"
  }

  function Join(labels: seq<string>): string
    requires |labels| > 0
  {
    if |labels| == 1 then labels[0] else Join(labels[..|labels| - 1]) + ";" + labels[|labels| - 1]
  }

  lemma {:induction false} TerminatedIsJoin(labels: seq<string>)
    requires |labels| > 0
    ensures Terminated(labels) == Join(labels) + ";"
  {
    if |labels| == 1 {
      assert Terminated(labels[..0]) == "";
    } else {
      TerminatedIsJoin(labels[..|labels| - 1]);
    }
  }

  lemma {:induction false} TerminatedOne(labels: seq<string>, part: string)
    ensures Terminated(labels + [part]) == Terminated(labels) + part + ";"
  {
    assert (labels + [part])[..|labels|] == labels;
  }

  lemma {:induction false} ReverseAppend<T>(s: seq<T>, x: T)
    ensures Reverse(s + [x]) == [x] + Reverse(s)
  {
  }

  /** Peeling the last name off a frame moves it to the end of what is written. */
  lemma {:induction false} PeelName(text: Text, names: seq<string>, frame: seq<Symbol>, j: nat)
    requires j < |frame|
    ensures Reverse(names + SymbolNames(text, frame[..j + 1]))
      == [Name(text, frame[j])] + Reverse(names + SymbolNames(text, frame[..j]))
  {
    var before := names + SymbolNames(text, frame[..j]);
    assert names + SymbolNames(text, frame[..j + 1]) == before + [Name(text, frame[j])];
    ReverseAppend(before, Name(text, frame[j]));
  }

  /** Writes one frame's symbols, the outermost first. */
  method PushFrame(line: string, text: Text, frame: seq<Symbol>, ghost done: seq<string>, ghost names: seq<string>)
    returns (longer: string, ghost now: seq<string>)
    requires line == Terminated(done)
    ensures longer == Terminated(now)
    ensures now + Reverse(names) == done + Reverse(names + SymbolNames(text, frame))
  {
    longer, now := line, done;
    var j := |frame|;
    assert frame[..j] == frame;
    while j > 0
      invariant 0 <= j <= |frame|
      invariant longer == Terminated(now)
      invariant now + Reverse(names + SymbolNames(text, frame[..j])) == done + Reverse(names + SymbolNames(text, frame))
    {
      j := j - 1;
      PeelName(text, names, frame, j);
      TerminatedOne(now, Name(text, frame[j]));
      longer := longer + Name(text, frame[j]) + ";";
      now := now + [Name(text, frame[j])];
    }
    assert names + SymbolNames(text, frame[..0]) == names;
  }

  /** The line of one report entry. */
  method Line(text: Text, key: Frames, value: int) returns (line: string)
    ensures line == Join(Labels(text, key)) + " " + IntText(value)
    ensures Parse(line).count == value
    ensures key.threadName != "" && ';' !in key.threadName ==> Parse(line).thread == key.threadName
    ensures key.threadName == "" ==> ParseInt(Parse(line).thread) == key.threadId
  {
    line := ThreadNameOrId(key);
    line := line + ";";
    ghost var done: seq<string> := [ThreadNameOrId(key)];
    assert done[..0] == [];
    assert key.frames[..|key.frames|] == key.frames;
    var i := |key.frames|;
    while i > 0
      invariant 0 <= i <= |key.frames|
      invariant line == Terminated(done) && |done| > 0
      invariant done + Reverse(StackNames(text, key.frames[..i])) == Labels(text, key)
    {
      i := i - 1;
      assert key.frames[..i + 1][..i] == key.frames[..i];
      ghost var inner := StackSymbols(key.frames[..i]);
      assert SymbolNames(text, inner + key.frames[i]) == SymbolNames(text, inner) + SymbolNames(text, key.frames[i]);
      line, done := PushFrame(line, text, key.frames[i], done, SymbolNames(text, inner));
    }
    assert done == Labels(text, key);
    TerminatedIsJoin(done);
    line := line[..|line| - 1];
    line := line + " " + IntText(value);
    LineShowsThread(text, key, value);
  }

  /** Splitting on ';'. */
  function Split(s: string): (parts: seq<string>)
    ensures |parts| > 0
  {
    if |s| == 0 then [""]
    else
      var parts := Split(s[..|s| - 1]);
      var c := s[|s| - 1];
      if c == ';' then parts + [""]
      else parts[..|parts| - 1] + [parts[|parts| - 1] + [c]]
  }

  /** The position of the last space, or -1. */
  function LastSpace(s: string): (p: int)
    ensures -1 <= p < |s|
    ensures p >= 0 ==> s[p] == ' '
    ensures forall i :: p < i < |s| ==> s[i] != ' '
  {
    if |s| == 0 then -1
    else if s[|s| - 1] == ' ' then |s| - 1 else LastSpace(s[..|s| - 1])
  }

  datatype Parsed = Parsed(thread: string, stack: seq<string>, count: int)

  /** Reading a line: split at the last space, then on ';'. */
  function Parse(line: string): Parsed {
    var p := LastSpace(line);
    var parts := Split(if p < 0 then line else line[..p]);
    Parsed(parts[0], Reverse(parts[1..]), ParseInt(line[p + 1..]))
  }

  lemma {:induction false} SplitHasNoSeparator(s: string, i: nat)
    requires i < |Split(s)|
    ensures ';' !in Split(s)[i]
  {
    if |s| > 0 {
      var parts := Split(s[..|s| - 1]);
      SplitHasNoSeparator(s[..|s| - 1], if i < |parts| then i else 0);
    }
  }

  /** Appending to the last piece. */
  function Extended(parts: seq<string>, part: string): seq<string>
    requires |parts| > 0
  {
    parts[..|parts| - 1] + [parts[|parts| - 1] + part]
  }

  lemma {:induction false} SplitAppend(s: string, part: string)
    requires ';' !in part
    ensures Split(s + part) == Extended(Split(s), part)
  {
    if |part| == 0 {
      assert s + part == s;
      assert Split(s)[|Split(s)| - 1] + part == Split(s)[|Split(s)| - 1];
    } else {
      var init, c := part[..|part| - 1], part[|part| - 1];
      assert part == init + [c] && c in part;
      assert (s + part)[..|s + part| - 1] == s + init;
      SplitAppend(s, init);
      var parts := Extended(Split(s), init);
      assert Split(s + part) == Extended(parts, [c]);
      var piece := Split(s)[|Split(s)| - 1];
      assert piece + init + [c] == piece + part;
    }
  }

  lemma {:induction false} SplitSeparator(s: string)
    ensures Split(s + ";") == Split(s) + [""]
  {
    assert (s + ";")[..|s|] == s;
  }

  lemma {:induction false} SplitNext(s: string, part: string)
    requires ';' !in part
    ensures Split(s + ";" + part) == Split(s) + [part]
  {
    SplitSeparator(s);
    SplitAppend(s + ";", part);
    assert "" + part == part;
    assert (Split(s) + [""])[..|Split(s)|] == Split(s);
  }

  lemma {:induction false} SplitJoin(labels: seq<string>)
    requires |labels| > 0 && forall i :: 0 <= i < |labels| ==> ';' !in labels[i]
    ensures Split(Join(labels)) == labels
  {
    var init, last := labels[..|labels| - 1], labels[|labels| - 1];
    if |labels| == 1 {
      SplitAppend("", last);
      assert "" + last == last;
    } else {
      SplitJoin(init);
      SplitNext(Join(init), last);
      assert labels == init + [last];
    }
  }

  lemma {:induction false} LastSpaceIs(head: string, tail: string)
    requires ' ' !in tail
    ensures LastSpace(head + " " + tail) == |head|
  {
    var s := head + " " + tail;
    if |tail| > 0 {
      var init := tail[..|tail| - 1];
      assert tail[|tail| - 1] in tail;
      assert s[..|s| - 1] == head + " " + init;
      LastSpaceIs(head, init);
    }
  }

  lemma {:induction false} ReverseTwice<T>(s: seq<T>)
    ensures Reverse(Reverse(s)) == s
  {
  }

  /** The last space of a line stands before the count. */
  lemma {:induction false} ParseLine(body: string, value: int)
    ensures Parse(body + " " + IntText(value)) == Parsed(Split(body)[0], Reverse(Split(body)[1..]), value)
  {
    var line := body + " " + IntText(value);
    IntReadsBack(value);
    LastSpaceIs(body, IntText(value));
    assert line[..|body|] == body;
    assert line[|body| + 1..] == IntText(value);
  }

  lemma {:induction false} JoinReadsBack(labels: seq<string>)
    requires |labels| > 0
    ensures Split(Join(labels)) == labels <==> forall i :: 0 <= i < |labels| ==> ';' !in labels[i]
  {
    if Split(Join(labels)) == labels {
      forall i | 0 <= i < |labels| ensures ';' !in labels[i] {
        SplitHasNoSeparator(Join(labels), i);
      }
    }
    if forall i :: 0 <= i < |labels| ==> ';' !in labels[i] {
      SplitJoin(labels);
    }
  }

  lemma {:induction false} PartsDecide(parts: seq<string>, thread: string, names: seq<string>)
    requires |parts| > 0
    ensures parts[0] == thread && Reverse(parts[1..]) == names <==> parts == [thread] + Reverse(names)
  {
    ReverseTwice(names);
    ReverseTwice(parts[1..]);
    assert parts == [parts[0]] + parts[1..];
    assert ([thread] + Reverse(names))[1..] == Reverse(names);
  }

  /** The first part of a split is what stands before the first separator. */
  lemma {:induction false} SplitHead(head: string, tail: string)
    requires ';' !in head
    ensures Split(head)[0] == head && Split(head + ";" + tail)[0] == head
    decreases |tail|
  {
    SplitAppend("", head);
    assert "" + head == head;
    assert Split("") == [""];
    SplitSeparator(head);
    if |tail| == 0 {
      assert head + ";" + tail == head + ";";
    } else {
      var s, init := head + ";" + tail, tail[..|tail| - 1];
      assert s[..|s| - 1] == head + ";" + init;
      SplitHead(head, init);
      SplitSeparator(head);
      MoreParts(head + ";", init);
      assert head + ";" + init == (head + ";") + init;
    }
  }

  /** Text appended leaves at least as many parts. */
  lemma {:induction false} MoreParts(s: string, tail: string)
    ensures |Split(s + tail)| >= |Split(s)|
  {
    if |tail| == 0 {
      assert s + tail == s;
    } else {
      assert (s + tail)[..|s + tail| - 1] == s + tail[..|tail| - 1];
      MoreParts(s, tail[..|tail| - 1]);
    }
  }

  /** Joined labels are the first of them, alone or with a separator after it. */
  lemma {:induction false} JoinStarts(labels: seq<string>) returns (rest: string)
    requires |labels| > 0
    ensures |labels| == 1 ==> Join(labels) == labels[0]
    ensures |labels| > 1 ==> Join(labels) == labels[0] + ";" + rest
  {
    rest := "";
    if |labels| > 1 {
      var init, last := labels[..|labels| - 1], labels[|labels| - 1];
      var before := JoinStarts(init);
      rest := if |labels| == 2 then last else before + ";" + last;
      if |labels| > 2 {
        assert labels[0] + ";" + before + ";" + last == labels[0] + ";" + (before + ";" + last);
      }
    }
  }

  /** Whatever the frames are called: a line reads back the thread's name if it has one without separator, the
      thread's number if it has none, and always the count. */
  lemma {:induction false} LineShowsThread(text: Text, key: Frames, value: int)
    ensures var parsed := Parse(Join(Labels(text, key)) + " " + IntText(value));
      && parsed.count == value
      && (key.threadName != "" && ';' !in key.threadName ==> parsed.thread == key.threadName)
      && (key.threadName == "" ==> ParseInt(parsed.thread) == key.threadId)
  {
    var labels := Labels(text, key);
    ParseLine(Join(labels), value);
    IntReadsBack(key.threadId);
    DecimalHasNoSeparator(key.threadId);
    if ';' !in labels[0] {
      var rest := JoinStarts(labels);
      SplitHead(labels[0], rest);
    }
  }

  lemma {:induction false} DecimalHasNoSeparator(n: nat)
    ensures ';' !in Decimal(n)
  {
    assert forall i :: 0 <= i < |Decimal(n)| ==> IsDigit(Decimal(n)[i]);
  }

  /** A line gives back thread, stack and count exactly when none of its labels contains the separator. */
  lemma {:induction false} LineReadsBack(text: Text, key: Frames, value: int)
    ensures Parse(Join(Labels(text, key)) + " " + IntText(value))
        == Parsed(ThreadNameOrId(key), StackNames(text, key.frames), value)
      <==> forall i :: 0 <= i < |Labels(text, key)| ==> ';' !in Labels(text, key)[i]
  {
    ParseLine(Join(Labels(text, key)), value);
    PartsDecide(Split(Join(Labels(text, key))), ThreadNameOrId(key), StackNames(text, key.frames));
    JoinReadsBack(Labels(text, key));
  }
}
