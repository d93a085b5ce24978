/** `write_thread_name_fallback`: the thread's number, in decimal, as a stand-in for its name. */
module ThreadNames {
  import opened Entries
  import opened Numerals
  import opened Frames

  /** The least n with t <= 10^n, but 16 at most: the number of digits the fallback writes. */
  function FallbackLength(t: nat): (n: nat)
    ensures n <= MAX_THREAD_NAME
    ensures n < MAX_THREAD_NAME ==> t <= Pow10(n)
    ensures n > 0 ==> t > Pow10(n - 1)
  {
    LengthFrom(t, 0)
  }

  function LengthFrom(t: nat, n: nat): (m: nat)
    requires n <= MAX_THREAD_NAME && (n > 0 ==> t > Pow10(n - 1))
    ensures n <= m <= MAX_THREAD_NAME
    ensures m < MAX_THREAD_NAME ==> t <= Pow10(m)
    ensures m > 0 ==> t > Pow10(m - 1)
    decreases MAX_THREAD_NAME - n
  {
    if t > Pow10(n) && n < MAX_THREAD_NAME then LengthFrom(t, n + 1) else n
  }

  lemma {:induction false} ProductGrows(d: nat, x: nat)
    requires x >= 1
    ensures d * x >= d
  {
  }

  lemma {:induction false} DivisionIsUnique(t: nat, d: nat, q: nat, r: nat)
    requires d > 0 && t == d * q + r && r < d
    ensures t / d == q && t % d == r
  {
    var p := t / d;
    assert t == d * p + t % d;
    assert d * q - d * p == d * (q - p);
    assert d * p - d * q == d * (p - q);
    if p < q {
      ProductGrows(d, q - p);
    } else if q < p {
      ProductGrows(d, p - q);
    }
  }

  /** `t` without its last `n` digits. */
  function Dropped(t: nat, n: nat): nat {
    if n == 0 then t else Dropped(t / 10, n - 1)
  }

  /** The last `n` digits of `t`, as a number. */
  function LastDigits(t: nat, n: nat): nat {
    if n == 0 then 0 else LastDigits(t / 10, n - 1) * 10 + t % 10
  }

  lemma {:induction false} TenTimes(t: nat, b: nat)
    requires b > 0
    ensures t / (10 * b) == t / 10 / b && t % (10 * b) == (t / 10) % b * 10 + t % 10
  {
    var u := t / 10;
    var q, r := u / b, u % b;
    assert u == b * q + r;
    assert (10 * b) * q == 10 * (b * q);
    DivisionIsUnique(t, 10 * b, q, 10 * r + t % 10);
  }

  lemma {:induction false} DigitsByDivision(t: nat, n: nat)
    ensures t / Pow10(n) == Dropped(t, n) && t % Pow10(n) == LastDigits(t, n)
  {
    if n > 0 {
      DigitsByDivision(t / 10, n - 1);
      TenTimes(t, Pow10(n - 1));
    }
  }

  lemma {:induction false} DroppedStep(t: nat, n: nat)
    ensures Dropped(t, n + 1) == Dropped(t, n) / 10
  {
    if n > 0 {
      DroppedStep(t / 10, n - 1);
    }
  }

  /** The next digit written extends the last digits of `t` by one. */
  lemma {:induction false} NextDigit(t: nat, base: nat, n: nat, index: nat)
    requires n > 0 && base == Pow10(n)
    ensures base / 10 == Pow10(n - 1)
    ensures LastDigits(Dropped(t, n - 1), index + 1)
      == LastDigits(Dropped(t, n), index) * 10 + t / (base / 10) % 10
  {
    DigitsByDivision(t, n - 1);
    DroppedStep(t, n - 1);
  }

  lemma {:induction false} ValueAppend(s: string, c: char)
    ensures Value(s + [c]) == Value(s) * 10 + DigitOf(c)
  {
    assert (s + [c])[..|s|] == s;
  }

  /** The second loop: from the leading digit down, dividing `base` by ten each time. */
  method WriteDigits(t: nat, len: nat, power: nat, name: array<char>)
    requires len <= name.Length && power == Pow10(len)
    modifies name
    ensures AllDigits(name[..len]) && Value(name[..len]) == LastDigits(t, len)
    ensures name[len..] == old(name[len..])
  {
    var base := power;
    var index := 0;
    while index < len && base > 1
      invariant index <= len && base == Pow10(len - index)
      invariant AllDigits(name[..index])
      invariant Value(name[..index]) == LastDigits(Dropped(t, len - index), index)
      invariant name[len..] == old(name[len..])
      decreases len - index
    {
      NextDigit(t, base, len - index, index);
      base := base / 10;
      var digit := CharOf(t / base % 10);
      ValueAppend(name[..index], digit);
      ghost var before := name[..index];
      name[index] := digit;
      assert name[..index + 1] == before + [digit];
      index := index + 1;
    }
  }

  method WriteThreadNameFallback(t: nat, name: array<char>)
    requires name.Length == MAX_THREAD_NAME
    modifies name
    ensures AllDigits(name[..FallbackLength(t)])
    ensures Value(name[..FallbackLength(t)]) == t % Pow10(FallbackLength(t))
    ensures name[FallbackLength(t)..] == old(name[FallbackLength(t)..])
  {
    var len := 0;
    var base := 1;
    while t > base && len < MAX_THREAD_NAME
      invariant len <= MAX_THREAD_NAME && base == Pow10(len)
      invariant len > 0 ==> t > Pow10(len - 1)
      invariant FallbackLength(t) == LengthFrom(t, len)
      decreases MAX_THREAD_NAME - len
    {
      base := base * 10;
      len := len + 1;
    }
    WriteDigits(t, len, base, name);
    DigitsByDivision(t, len);
  }

  ghost predicate IsPowerOfTen(t: nat) {
    exists k: nat :: t == Pow10(k)
  }

  /** A power of ten is not below the power of ten that its length stands for. */
  lemma {:induction false} PowerOfTenIsTooLong(t: nat, n: nat)
    requires IsPowerOfTen(t) && (n > 0 ==> t > Pow10(n - 1))
    ensures t >= Pow10(n)
  {
    var k: nat :| t == Pow10(k);
    if k < n {
      if k < n - 1 {
        Pow10Monotone(k, n - 1);
      }
    } else if n < k {
      Pow10Monotone(n, k);
    }
  }

  lemma {:induction false} ShortIff(t: nat, n: nat, most: nat)
    requires n <= most && (n < most ==> t <= Pow10(n)) && (n > 0 ==> t > Pow10(n - 1))
    ensures t < Pow10(n) <==> t < Pow10(most) && !IsPowerOfTen(t)
  {
    if IsPowerOfTen(t) {
      PowerOfTenIsTooLong(t, n);
    } else if n < most {
      assert t != Pow10(n);
      Pow10Monotone(n, most);
    }
  }

  lemma {:induction false} ShortEnough(t: nat)
    ensures t < Pow10(FallbackLength(t)) <==> t < Pow10(MAX_THREAD_NAME) && !IsPowerOfTen(t)
  {
    ShortIff(t, FallbackLength(t), MAX_THREAD_NAME);
  }

  lemma {:induction false} SmallRemainder(t: nat, d: nat)
    requires t < d
    ensures t % d == t
  {
  }

  lemma {:induction false} ReadsBackIffShort(t: nat, d: nat, value: int)
    requires d > 0 && value == t % d
    ensures value == t <==> t < d
  {
    if t < d {
      SmallRemainder(t, d);
    }
  }

  /** The digits written are worth the thread's number exactly when the number has at most sixteen digits
      and is not a power of ten; the number 0 is written with no digit at all. */
  lemma {:induction false} FallbackReadsBack(t: nat, s: string)
    requires |s| == FallbackLength(t) && AllDigits(s) && Value(s) == t % Pow10(FallbackLength(t))
    ensures Value(s) == t <==> t < Pow10(MAX_THREAD_NAME) && !IsPowerOfTen(t)
  {
    ShortEnough(t);
    ReadsBackIffShort(t, Pow10(FallbackLength(t)), Value(s));
  }

  /** A text that reads back has no leading zero. */
  lemma {:induction false} FallbackHasNoLeadingZero(t: nat, s: string)
    requires |s| == FallbackLength(t) && AllDigits(s) && Value(s) == t > 0
    ensures |s| > 0 && s[0] != '0'
  {
    ValueBounds(s);
  }

  // ---- The array as the handler reads it ----

  const TERMINATOR := '\0'

  /** `CStr::from_ptr`: the characters before the first terminator. No value where there is none among the
      cells given: the read then goes on beyond them. */
  function CString(cells: seq<char>): Option<string> {
    if |cells| == 0 then None
    else if cells[0] == TERMINATOR then Some("")
    else
      match CString(cells[1..])
      case Some(s) => Some([cells[0]] + s)
      case None => None
  }

  lemma {:induction false} CStringMeaning(s: string, cells: seq<char>)
    requires TERMINATOR !in s && s <= cells
    ensures |s| < |cells| && cells[|s|] == TERMINATOR ==> CString(cells) == Some(s)
    ensures |s| == |cells| ==> CString(cells) == None
  {
    if |s| > 0 {
      assert cells[0] == s[0] && s[1..] <= cells[1..];
      assert s == [s[0]] + s[1..];
      CStringMeaning(s[1..], cells[1..]);
    }
  }

  /** What the fallback leaves of a zeroed array. */
  ghost predicate IsFallback(cells: seq<char>, t: nat) {
    && |cells| == MAX_THREAD_NAME
    && AllDigits(cells[..FallbackLength(t)])
    && Value(cells[..FallbackLength(t)]) == t % Pow10(FallbackLength(t))
    && forall i :: FallbackLength(t) <= i < MAX_THREAD_NAME ==> cells[i] == TERMINATOR
  }

  lemma {:induction false} FullLength(t: nat)
    ensures FallbackLength(t) == MAX_THREAD_NAME <==> t > Pow10(MAX_THREAD_NAME - 1)
  {
    var n := FallbackLength(t);
    if n < MAX_THREAD_NAME - 1 {
      Pow10Monotone(n, MAX_THREAD_NAME - 1);
    }
  }

  /** A terminator is left if and only if the number is at most 10^15: sixteen digits fill the array, and the
      handler reads past its end. */
  lemma {:induction false} FallbackTerminated(t: nat, cells: seq<char>)
    requires IsFallback(cells, t)
    ensures CString(cells) == if t <= Pow10(MAX_THREAD_NAME - 1) then Some(cells[..FallbackLength(t)]) else None
    ensures TERMINATOR in cells <==> t <= Pow10(MAX_THREAD_NAME - 1)
  {
    var s := cells[..FallbackLength(t)];
    FullLength(t);
    assert TERMINATOR !in s by {
      assert forall i :: 0 <= i < |s| ==> IsDigit(s[i]);
    }
    CStringMeaning(s, cells);
    if |s| == |cells| {
      assert s == cells;
    } else {
      assert cells[|s|] == TERMINATOR;
    }
  }

  /** The name the handler reads is the thread's number if and only if the number is positive, below 10^15 and
      no power of ten. */
  lemma {:induction false} FallbackIsNumeral(t: nat, cells: seq<char>)
    requires IsFallback(cells, t)
    ensures CString(cells) == Some(Decimal(t)) <==> 0 < t < Pow10(MAX_THREAD_NAME - 1) && !IsPowerOfTen(t)
  {
    var s := cells[..FallbackLength(t)];
    FallbackTerminated(t, cells);
    FallbackReadsBack(t, s);
    TextIsNumeral(t, s);
    BelowHighest(t, MAX_THREAD_NAME - 1);
  }

  /** A text of that length is the numeral of a positive number it is worth, and of no other. */
  lemma {:induction false} TextIsNumeral(t: nat, s: string)
    requires |s| == FallbackLength(t) && AllDigits(s)
    ensures s == Decimal(t) <==> t > 0 && Value(s) == t
  {
    DecimalReadsBack(t);
    if t > 0 && Value(s) == t {
      FallbackHasNoLeadingZero(t, s);
      NumeralIsUnique(s);
    }
  }

  lemma {:induction false} BelowHighest(t: nat, n: nat)
    ensures t <= Pow10(n) && !IsPowerOfTen(t) <==> t < Pow10(n) && !IsPowerOfTen(t)
    ensures t <= Pow10(n) ==> t < Pow10(n + 1)
  {
    if t == Pow10(n) {
      assert IsPowerOfTen(t);
    }
  }

  /** The handler's steps: a zeroed array, the fallback, and the C string in the array. */
  method FallbackName(t: nat) returns (name: Option<string>)
    ensures name.Some? <==> t <= Pow10(MAX_THREAD_NAME - 1)
    ensures name == Some(Decimal(t)) <==> 0 < t < Pow10(MAX_THREAD_NAME - 1) && !IsPowerOfTen(t)
    ensures name.Some? ==> |name.value| == FallbackLength(t) && Value(name.value) == t % Pow10(FallbackLength(t))
  {
    var a := new char[MAX_THREAD_NAME](_ => TERMINATOR);
    ghost var before := a[..];
    WriteThreadNameFallback(t, a);
    ghost var cells := a[..];
    forall i | FallbackLength(t) <= i < MAX_THREAD_NAME ensures cells[i] == TERMINATOR {
      assert cells[i] == a[FallbackLength(t)..][i - FallbackLength(t)] == before[i];
    }
    assert cells[..FallbackLength(t)] == a[..FallbackLength(t)];
    FallbackTerminated(t, cells);
    FallbackIsNumeral(t, cells);
    name := CString(a[..]);
  }

  /** `s` before the C string in `rest`. */
  function Prepended(s: string, rest: Option<string>): Option<string> {
    match rest
    case Some(tail) => Some(s + tail)
    case None => None
  }

  lemma {:induction false} CStringStep(c: char, rest: seq<char>)
    requires c != TERMINATOR
    ensures CString([c] + rest) == Prepended([c], CString(rest))
  {
    assert ([c] + rest)[1..] == rest;
  }

  lemma {:induction false} PrependTwice(a: string, b: string, rest: Option<string>)
    ensures Prepended(a, Prepended(b, rest)) == Prepended(a + b, rest)
  {
    if rest.Some? {
      assert a + (b + rest.value) == a + b + rest.value;
    }
  }

  lemma {:induction false} PrependNothing(rest: Option<string>)
    ensures Prepended("", rest) == rest
  {
    if rest.Some? {
      assert "" + rest.value == rest.value;
    }
  }

  /** Whatever lies beyond an array without a terminator becomes part of the name; a name longer than the array
      is one that `NewUnresolvedFrames` has no value for. */
  lemma {:induction false} UnterminatedReadsOn(cells: seq<char>, beyond: seq<char>)
    requires CString(cells) == None
    ensures CString(cells + beyond) == Prepended(cells, CString(beyond))
  {
    if |cells| == 0 {
      assert cells + beyond == beyond;
      PrependNothing(CString(beyond));
    } else {
      var c, rest := cells[0], cells[1..];
      assert cells == [c] + rest && cells + beyond == [c] + (rest + beyond);
      CStringStep(c, rest + beyond);
      UnterminatedReadsOn(rest, beyond);
      PrependTwice([c], rest, CString(beyond));
    }
  }

  /** One number above 10^15: its array has no terminator, and any further character makes the name too long. */
  lemma {:induction false} FallbackOverruns(cells: seq<char>, beyond: seq<char>)
    requires IsFallback(cells, 1_000_000_000_000_001)
    ensures CString(cells) == None
    ensures CString(cells + beyond).Some? && |beyond| > 0 && beyond[0] != TERMINATOR ==>
      |CString(cells + beyond).value| > MAX_THREAD_NAME
  {
    assert Pow10(8) == 100_000_000 && Pow10(15) == 1_000_000_000_000_000;
    FallbackTerminated(1_000_000_000_000_001, cells);
    UnterminatedReadsOn(cells, beyond);
  }
}
