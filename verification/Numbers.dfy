/**
 * Printing and parsing numbers: printnum over a bounded buffer (lib/printfmt.c), strtol and ltostr
 * (lib/string.c), in 32-bit longs. Text past the end of a string reads as the terminating '\0'.
 */
module Numbers {
  import opened Sequences

  /** The value a 32-bit long keeps of x. */
  function Wrap(x: int): int { (x + 0x8000_0000) % 0x1_0000_0000 - 0x8000_0000 }

  function CharAt(s: string, i: nat): char { if i < |s| then s[i] else '\0' }

  // ----- printnum -----

  /** The character at position d of "0123456789abcdef". */
  function DigitChar(d: nat): char
    requires d < 16
  {
    "0123456789abcdef"[d]
  }

  function Repeat(c: char, n: int): string
    decreases n
  {
    if n <= 0 then "" else [c] + Repeat(c, n - 1)
  }

  /** The number without its last digit, and that digit. */
  function Lead(num: nat, base: nat): (q: nat)
    requires 2 <= base
    ensures num >= base ==> q < num
  {
    num / base
  }

  function Unit(num: nat, base: nat): (d: nat)
    requires 2 <= base
    ensures d < base
  {
    num % base
  }

  /** printnum's output: padding in front of the most significant digit, then the digits. */
  function Printed(num: nat, base: nat, width: int, pad: char): string
    requires 2 <= base <= 16
  {
    (if num >= base then Printed(Lead(num, base), base, width - 1, pad) else Repeat(pad, width - 1)) + [DigitChar(Unit(num, base))]
  }

  function Numeral(num: nat, base: nat): (s: string)
    requires 2 <= base <= 16
    ensures s != ""
  {
    (if num >= base then Numeral(Lead(num, base), base) else "") + [DigitChar(Unit(num, base))]
  }

  /** The padding makes up what the numeral lacks of the width: the length is the greater of the two. */
  lemma {:induction false} PrintedIsPadded(num: nat, base: nat, width: int, pad: char)
    requires 2 <= base <= 16
    ensures Printed(num, base, width, pad) == Repeat(pad, width - |Numeral(num, base)|) + Numeral(num, base)
    ensures |Printed(num, base, width, pad)| == if width > |Numeral(num, base)| then width else |Numeral(num, base)|
  {
    hide Lead, Unit, DigitChar;
    if num >= base {
      PrintedIsPadded(Lead(num, base), base, width - 1, pad);
    }
    RepeatLength(pad, width - |Numeral(num, base)|);
  }

  lemma {:induction false} RepeatLength(c: char, n: int)
    ensures |Repeat(c, n)| == (if n > 0 then n else 0) && forall i :: 0 <= i < |Repeat(c, n)| ==> Repeat(c, n)[i] == c
    decreases n
  {
    if n > 0 { RepeatLength(c, n - 1); }
  }

  /** As much of s as fits in n characters. */
  function Cut(s: string, n: nat): string { if |s| <= n then s else s[..n] }

  lemma CutAppend(s: string, t: string, n: nat)
    ensures Cut(Cut(s, n) + t, n) == Cut(s + t, n)
  {
  }

  lemma PrintedInParts(text: string, num: nat, base: nat, width: int, pad: char, room: nat)
    requires 2 <= base <= 16
    ensures var start := if num >= base then Printed(Lead(num, base), base, width - 1, pad) else Repeat(pad, width - 1);
            && |Printed(num, base, width, pad)| == |start| + 1
            && Cut(Cut(text + start, room) + [DigitChar(Unit(num, base))], room) == Cut(text + Printed(num, base, width, pad), room)
  {
    var start := if num >= base then Printed(Lead(num, base), base, width - 1, pad) else Repeat(pad, width - 1);
    var digit := [DigitChar(Unit(num, base))];
    CutAppend(text + start, digit, room);
    assert text + (start + digit) == text + start + digit;
  }

  /** The buffer vsnprintf prints into: one place is kept for the terminator, and cnt counts what was cut too. */
  class SprintBuf {
    var buf: array<char>
    var next: nat
    var cnt: nat

    ghost predicate Valid() reads this { next < buf.Length }

    ghost function Text(): string
      reads this, buf
      requires Valid()
    {
      buf[..next]
    }

    constructor (n: nat)
      requires n >= 1
      ensures Valid() && fresh(buf) && buf.Length == n && Text() == "" && cnt == 0
    {
      buf := new char[n];
      next, cnt := 0, 0;
    }

    method Putch(ch: char)
      requires Valid()
      modifies this, buf
      ensures Valid() && buf == old(buf) && cnt == old(cnt) + 1
      ensures Text() == Cut(old(Text()) + [ch], buf.Length - 1)
    {
      cnt := cnt + 1;
      if next < buf.Length - 1 {
        buf[next] := ch;
        next := next + 1;
      }
    }

    method PrintNum(num: nat, base: nat, width: int, pad: char)
      requires Valid() && 2 <= base <= 16
      modifies this, buf
      ensures Valid() && buf == old(buf) && cnt == old(cnt) + |Printed(num, base, width, pad)|
      ensures Text() == Cut(old(Text()) + Printed(num, base, width, pad), buf.Length - 1)
      decreases num
    {
      hide Cut, Printed, Repeat, DigitChar, Unit;
      PrintedInParts(Text(), num, base, width, pad, buf.Length - 1);
      if num >= base {
        PrintNum(Lead(num, base), base, width - 1, pad);
      } else {
        Pad(width - 1, pad);
      }
      Putch(DigitChar(Unit(num, base)));
    }

    /** The padding loop. */
    method Pad(n: int, pad: char)
      requires Valid()
      modifies this, buf
      ensures Valid() && buf == old(buf) && cnt == old(cnt) + |Repeat(pad, n)|
      ensures Text() == Cut(old(Text()) + Repeat(pad, n), buf.Length - 1)
    {
      hide Cut, Repeat;
      var w := n;
      ghost var text := Text();
      ghost var done := "";
      CutShort(text, buf.Length - 1);
      EmptyEnds(text);
      EmptyEnds(Repeat(pad, n));
      while w > 0
        invariant Valid() && buf == old(buf) && cnt == old(cnt) + |done|
        invariant Repeat(pad, n) == done + Repeat(pad, w)
        invariant Text() == Cut(text + done, buf.Length - 1)
      {
        PadMore(text, done, pad, n, w, buf.Length - 1);
        Putch(pad);
        done := done + [pad];
        w := w - 1;
      }
      RepeatNone(pad, w);
      EmptyEnds(done);
    }
  }

  lemma EmptyEnds(s: string)
    ensures "" + s == s && s + "" == s
  {
  }

  lemma RepeatNone(c: char, n: int)
    requires n <= 0
    ensures Repeat(c, n) == ""
  {
  }

  lemma CutShort(s: string, n: nat)
    requires |s| <= n
    ensures Cut(s, n) == s
  {
  }

  lemma PadMore(text: string, done: string, pad: char, n: int, w: int, room: nat)
    requires w > 0 && Repeat(pad, n) == done + Repeat(pad, w)
    ensures Repeat(pad, n) == (done + [pad]) + Repeat(pad, w - 1)
    ensures Cut(Cut(text + done, room) + [pad], room) == Cut(text + (done + [pad]), room)
  {
    CutAppend(text + done, [pad], room);
    assert text + (done + [pad]) == text + done + [pad];
  }

  // ----- strtol -----

  /** The digit a character stands for, 36 if none. */
  function DigitOf(c: char): (d: nat)
    ensures d <= 36
  {
    if '0' <= c <= '9' then c as int - '0' as int
    else if 'a' <= c <= 'z' then c as int - 'a' as int + 10
    else if 'A' <= c <= 'Z' then c as int - 'A' as int + 10
    else 36
  }

  function SkipSpace(s: string, i: nat): (j: nat)
    ensures i <= j
    decreases |s| - i
  {
    if i < |s| && (s[i] == ' ' || s[i] == '\t') then SkipSpace(s, i + 1) else i
  }

  /** The digit loop from position i with value v: the value it reaches, wrapped, and where it stops. */
  function Accumulate(s: string, i: nat, base: nat, v: int): (int, nat)
    requires base <= 36
    decreases |s| - i
  {
    if i < |s| && DigitOf(s[i]) < base then Accumulate(s, i + 1, base, Wrap(v * base + DigitOf(s[i]))) else (v, i)
  }

  /** Past the prefix: where the digits start, and their base. */
  function Prefix(s: string, i: nat, base: nat): (nat, nat) {
    if (base == 0 || base == 16) && CharAt(s, i) == '0' && CharAt(s, i + 1) == 'x' then (i + 2, 16)
    else if base == 0 && CharAt(s, i) == '0' then (i + 1, 8)
    else if base == 0 then (i, 10)
    else (i, base)
  }

  /** strtol: the value, and the index endptr points at. */
  function Strtol(s: string, base: nat): (int, nat)
    requires base <= 36
  {
    var i := SkipSpace(s, 0);
    var neg := CharAt(s, i) == '-';
    var (j, b) := Prefix(s, if neg || CharAt(s, i) == '+' then i + 1 else i, base);
    var (val, end) := Accumulate(s, j, b, 0);
    (if neg then Wrap(-val) else val, end)
  }

  method ParseLong(s: string, base: nat) returns (value: int, end: nat)
    requires base <= 36
    ensures (value, end) == Strtol(s, base)
  {
    hide SkipSpace, Accumulate;
    var i := GobbleSpace(s);
    var neg, b := false, base;
    if CharAt(s, i) == '+' {
      i := i + 1;
    } else if CharAt(s, i) == '-' {
      i, neg := i + 1, true;
    }
    if (b == 0 || b == 16) && CharAt(s, i) == '0' && CharAt(s, i + 1) == 'x' {
      i, b := i + 2, 16;
    } else if b == 0 && CharAt(s, i) == '0' {
      i, b := i + 1, 8;
    } else if b == 0 {
      b := 10;
    }
    value, end := ReadDigits(s, i, b);
    if neg { value := Wrap(-value); }
  }

  /** The loop over initial blanks. */
  method GobbleSpace(s: string) returns (i: nat)
    ensures i == SkipSpace(s, 0)
  {
    i := 0;
    while CharAt(s, i) == ' ' || CharAt(s, i) == '\t'
      invariant SkipSpace(s, 0) == SkipSpace(s, i)
      decreases |s| - i
    {
      i := i + 1;
    }
  }

  /** The loop over the digits. */
  method ReadDigits(s: string, from: nat, base: nat) returns (val: int, i: nat)
    requires base <= 36
    ensures (val, i) == Accumulate(s, from, base, 0)
  {
    val, i := 0, from;
    while i < |s| && DigitOf(s[i]) < base
      invariant Accumulate(s, from, base, 0) == Accumulate(s, i, base, val)
      decreases |s| - i
    {
      hide DigitOf, Wrap;
      val := Wrap(val * base + DigitOf(s[i]));
      i := i + 1;
    }
  }

  // ----- what a string of digits is worth -----

  ghost predicate Digital(s: string, base: nat) { forall i :: 0 <= i < |s| ==> DigitOf(s[i]) < base }

  function ValueOf(s: string, base: nat): (v: nat) {
    if s == "" then 0 else ValueOf(s[..|s| - 1], base) * base + DigitOf(s[|s| - 1])
  }

  lemma WrapOf(v: int, base: nat, d: nat)
    ensures Wrap(Wrap(v) * base + d) == Wrap(v * base + d)
  {
    var q := (v + 0x8000_0000) / 0x1_0000_0000;
    assert Wrap(v) == v - q * 0x1_0000_0000;
    assert Wrap(v) * base == v * base - (q * base) * 0x1_0000_0000;
    WrapShift(v * base + d, -(q * base));
  }

  lemma WrapShift(x: int, m: int)
    ensures Wrap(x + m * 0x1_0000_0000) == Wrap(x)
  {
    var y := x + 0x8000_0000;
    var (q, r) := (y / 0x1_0000_0000, y % 0x1_0000_0000);
    assert y + m * 0x1_0000_0000 == (q + m) * 0x1_0000_0000 + r;
    QuotientIs(y + m * 0x1_0000_0000, q + m, r);
  }

  lemma QuotientIs(x: int, q: int, r: int)
    requires x == q * 0x1_0000_0000 + r && 0 <= r < 0x1_0000_0000
    ensures x % 0x1_0000_0000 == r
  {
  }

  lemma WrapSmall(v: int)
    requires -0x8000_0000 <= v < 0x8000_0000
    ensures Wrap(v) == v
  {
  }

  /** One more digit at the end. */
  lemma {:induction false} AccumulateMore(s: string, c: char, i: nat, base: nat, v: int)
    requires base <= 36 && i <= |s| && Digital(s[i..], base) && DigitOf(c) < base
    ensures Accumulate(s, i, base, v).1 == |s|
    ensures Accumulate(s + [c], i, base, v) == (Wrap(Accumulate(s, i, base, v).0 * base + DigitOf(c)), |s| + 1)
    decreases |s| - i
  {
    if i < |s| {
      assert s[i..][0] == s[i] && s[i..][1..] == s[i + 1..];
      AccumulateMore(s, c, i + 1, base, Wrap(v * base + DigitOf(s[i])));
    } else {
      assert Accumulate(s + [c], i + 1, base, Wrap(v * base + DigitOf(c))) == (Wrap(v * base + DigitOf(c)), i + 1);
    }
  }

  /** Digits after anything at all are read to the end, for their value in 32 bits. */
  lemma {:induction false} AccumulateIsValue(pre: string, s: string, base: nat)
    requires base <= 36 && Digital(s, base)
    ensures Accumulate(pre + s, |pre|, base, 0) == (Wrap(ValueOf(s, base)), |pre| + |s|)
  {
    if s == "" {
      assert pre + s == pre;
    } else {
      var (t, c) := (s[..|s| - 1], s[|s| - 1]);
      AccumulateIsValue(pre, t, base);
      assert pre + s == pre + t + [c] && (pre + t)[|pre|..] == t;
      AccumulateMore(pre + t, c, |pre|, base, 0);
      WrapOf(ValueOf(t, base), base, DigitOf(c));
    }
  }

  lemma {:induction false} SkipBlanks(s: string, n: nat, i: nat)
    requires i <= n <= |s| && (forall k :: 0 <= k < n ==> s[k] == ' ') && CharAt(s, n) != ' ' && CharAt(s, n) != '\t'
    ensures SkipSpace(s, i) == n
    decreases n - i
  {
    if i < n { SkipBlanks(s, n, i + 1); }
  }

  /** strtol reads blanks, an optional minus sign and digits as what they say. */
  lemma StrtolReads(text: string, blanks: string, neg: bool, s: string, base: nat)
    requires s != "" && (base == 10 || base == 16) && Digital(s, base) && forall k :: 0 <= k < |blanks| ==> blanks[k] == ' '
    requires text == blanks + (if neg then "-" else "") + s
    ensures Strtol(text, base) == (Wrap(if neg then 0 - ValueOf(s, base) else ValueOf(s, base)), |text|)
  {
    var pre := blanks + (if neg then "-" else "");
    StrtolStart(text, blanks, neg, s, base);
    WrapNegated(ValueOf(s, base));
    AccumulateIsValue(pre, s, base);
    hide Accumulate, Digital, DigitOf, Wrap, ValueOf, SkipSpace, CharAt, Prefix;
  }

  lemma StrtolStart(text: string, blanks: string, neg: bool, s: string, base: nat)
    requires s != "" && (base == 10 || base == 16) && Digital(s, base) && forall k :: 0 <= k < |blanks| ==> blanks[k] == ' '
    requires text == blanks + (if neg then "-" else "") + s
    ensures var n := |blanks| + if neg then 1 else 0;
      && SkipSpace(text, 0) == |blanks| && (CharAt(text, |blanks|) == '-' <==> neg) && CharAt(text, |blanks|) != '+'
      && Prefix(text, n, base) == (n, base)
  {
    var n := |blanks| + if neg then 1 else 0;
    assert DigitOf(text[n]) < base by { assert text[n] == s[0]; }
    assert neg ==> text[|blanks|] == '-';
    SkipBlanks(text, |blanks|, 0);
    assert CharAt(text, n + 1) != 'x' by {
      if n + 1 < |text| { assert text[n + 1] == s[1] && DigitOf(s[1]) < base; }
    }
  }

  lemma WrapNegated(v: int)
    ensures Wrap(-Wrap(v)) == Wrap(-v)
  {
    var q := (v + 0x8000_0000) / 0x1_0000_0000;
    assert Wrap(v) == v - q * 0x1_0000_0000;
    WrapShift(-v, q);
  }

  // ----- printing, then parsing -----

  lemma DigitCharIs(d: nat)
    requires d < 16
    ensures DigitOf(DigitChar(d)) == d
  {
  }

  lemma {:induction false} NumeralValue(num: nat, base: nat)
    requires base == 10 || base == 16
    ensures Digital(Numeral(num, base), base) && ValueOf(Numeral(num, base), base) == num
  {
    hide DigitOf, DigitChar, Lead, Unit;
    var (q, d) := (Lead(num, base), Unit(num, base));
    LeadAndUnit(num, base);
    DigitCharIs(d);
    if num >= base {
      NumeralValue(q, base);
      MoreDigits(Numeral(q, base), DigitChar(d), base);
    } else {
      assert "" + [DigitChar(d)] == [DigitChar(d)];
      MoreDigits("", DigitChar(d), base);
    }
  }

  lemma LeadAndUnit(num: nat, base: nat)
    requires base == 10 || base == 16
    ensures num == Lead(num, base) * base + Unit(num, base) && (num < base ==> Lead(num, base) == 0)
  {
    if base == 10 { assert num == num / 10 * 10 + num % 10; } else { assert num == num / 16 * 16 + num % 16; }
  }

  lemma MoreDigits(s: string, c: char, base: nat)
    requires Digital(s, base) && DigitOf(c) < base
    ensures Digital(s + [c], base) && ValueOf(s + [c], base) == ValueOf(s, base) * base + DigitOf(c)
  {
    assert (s + [c])[..|s|] == s;
    hide DigitOf;
  }

  lemma {:induction false} ZerosInFront(zeros: string, s: string, base: nat)
    requires Digital(s, base) && base > 0 && forall k :: 0 <= k < |zeros| ==> zeros[k] == '0'
    ensures Digital(zeros + s, base) && ValueOf(zeros + s, base) == ValueOf(s, base)
  {
    if s != "" {
      var t := s[..|s| - 1];
      ZerosInFront(zeros, t, base);
      assert (zeros + s)[..|zeros| + |s| - 1] == zeros + t;
    } else if zeros != "" {
      assert zeros + s == zeros;
      var z := zeros[..|zeros| - 1];
      ZerosInFront(z, "", base);
      assert z + "" == z;
    }
  }

  /** Padding changes neither the value nor that all of it is read. */
  lemma PaddedReads(pads: string, pad: char, s: string, base: nat)
    requires (base == 10 || base == 16) && (pad == ' ' || pad == '0') && s != "" && Digital(s, base)
    requires forall k :: 0 <= k < |pads| ==> pads[k] == pad
    ensures Strtol(pads + s, base) == (Wrap(ValueOf(s, base)), |pads + s|)
  {
    hide Strtol, ValueOf, Digital, Wrap;
    if pad == ' ' {
      EmptyBetween(pads, s);
      StrtolReads(pads + s, pads, false, s, base);
    } else {
      ZerosInFront(pads, s, base);
      EmptyBetween("", pads + s);
      StrtolReads(pads + s, "", false, pads + s, base);
    }
  }

  /** strtol of what printnum printed is the number in 32 bits: the number itself exactly below 2^31. */
  lemma PrintThenParse(num: nat, base: nat, width: int, pad: char)
    requires (base == 10 || base == 16) && (pad == ' ' || pad == '0')
    ensures var text := Printed(num, base, width, pad);
      Strtol(text, base) == (Wrap(num), |text|) && (Strtol(text, base).0 == num <==> num < 0x8000_0000)
  {
    var s := Numeral(num, base);
    hide Strtol, Printed, Numeral, ValueOf, Repeat, Digital, Wrap;
    WrapIs(num);
    RepeatLength(pad, width - |s|);
    PrintedIsPadded(num, base, width, pad);
    NumeralValue(num, base);
    PaddedReads(Repeat(pad, width - |s|), pad, s, base);
  }

  lemma WrapIs(n: nat)
    ensures Wrap(n) == n <==> n < 0x8000_0000
  {
  }

  lemma EmptyBetween(a: string, b: string)
    ensures a + "" + b == a + b && (a == "" ==> a + b == b)
  {
  }

  // ----- ltostr -----

  /** C's division truncates toward zero. */
  function Quot(n: int): int { if n >= 0 then n / 10 else -(-n / 10) }

  function Rem(n: int): (r: int)
    ensures -9 <= r <= 9
  {
    if n >= 0 then n % 10 else -(-n % 10)
  }

  function RemChar(n: int): char { (48 + Rem(n)) as char }

  /** The digits the loop writes, units first: it stops at the first zero above the units. */
  function Written(n: int): (s: string)
    ensures s != ""
    decreases if n >= 0 then n else -n
  {
    [RemChar(n)] + if Rem(Quot(n)) != 0 then Written(Quot(n)) else ""
  }

  function Ltostr(v: int): string {
    if v < 0 then "-" + Reverse(Written(Wrap(-v))) else Reverse(Written(v))
  }

  /** The loop that writes the digits, units first, from position start. */
  method WriteDigits(value0: int, str: array<char>, start: nat) returns (s: nat)
    requires start + |Written(value0)| <= str.Length
    modifies str
    ensures s == start + |Written(value0)|
    ensures str[..] == Overwritten(old(str[..]), start, Written(value0))
  {
    ghost var s0 := str[..];
    hide RemChar, Overwritten, Quot, Rem, Size, Written, Progress;
    FirstDigit(s0, start, value0);
    var value := Quot(value0);
    str[start] := RemChar(value0);
    s := start + 1;
    ghost var done := [RemChar(value0)];
    while Rem(value) != 0
      invariant s == start + |done|
      invariant Progress(s0, start, str[..], Written(value0), done, value)
      decreases Size(value)
    {
      OneMoreDigit(s0, start, str[..], Written(value0), done, value);
      str[s] := RemChar(value);
      done := done + [RemChar(value)];
      s := s + 1;
      value := Quot(value);
    }
    ProgressDone(s0, start, str[..], Written(value0), done, value);
  }

  /** Of the digits all, done are written into s0 from position at, giving s; value holds the others. */
  ghost predicate Progress(s0: string, at: nat, s: string, all: string, done: string, value: int) {
    && at + |all| <= |s0| && |done| <= |all|
    && s == Overwritten(s0, at, done)
    && all == done + (if Rem(value) != 0 then Written(value) else "")
  }

  lemma ProgressDone(s0: string, at: nat, s: string, all: string, done: string, value: int)
    requires Progress(s0, at, s, all, done, value) && Rem(value) == 0
    ensures done == all && at + |all| <= |s0| && s == Overwritten(s0, at, all)
  {
  }

  /** s with t written over it from position at. */
  function Overwritten(s: string, at: nat, t: string): string
    requires at + |t| <= |s|
  {
    s[..at] + t + s[at + |t|..]
  }

  lemma FirstDigit(s0: string, at: nat, value: int)
    requires at + |Written(value)| <= |s0|
    ensures var c := RemChar(value);
      at < |s0| && Progress(s0, at, s0[at := c], Written(value), [c], Quot(value))
  {
    hide RemChar, Quot, Rem, Written;
    WrittenSplits(value);
  }

  lemma OneMoreDigit(s0: string, at: nat, s: string, all: string, done: string, value: int)
    requires Rem(value) != 0 && Progress(s0, at, s, all, done, value)
    ensures var (c, n) := (RemChar(value), at + |done|);
      n < |s0| == |s| && Progress(s0, at, s[n := c], all, done + [c], Quot(value)) && Size(Quot(value)) < Size(value)
  {
    hide RemChar, Quot, Rem, Written, Size, Overwritten;
    Shrinks(value);
    WrittenSplits(value);
    OverwrittenShape(s0, at, done);
    OverwrittenMore(s0, at, done, RemChar(value));
    var rest := if Rem(Quot(value)) != 0 then Written(Quot(value)) else "";
    assert done + ([RemChar(value)] + rest) == (done + [RemChar(value)]) + rest;
  }

  lemma WrittenSplits(value: int)
    ensures Written(value) == [RemChar(value)] + (if Rem(Quot(value)) != 0 then Written(Quot(value)) else "")
  {
    hide RemChar, Quot, Rem;
  }

  lemma OverwrittenShape(s: string, at: nat, t: string)
    requires at + |t| <= |s|
    ensures |Overwritten(s, at, t)| == |s|
  {
  }

  lemma OverwrittenMore(s0: string, at: nat, done: string, c: char)
    requires at + |done| < |s0|
    ensures Overwritten(s0, at, done)[at + |done| := c] == Overwritten(s0, at, done + [c])
  {
  }

  function Size(n: int): nat { if n >= 0 then n else -n }

  lemma Shrinks(n: int)
    requires Rem(n) != 0
    ensures Size(Quot(n)) < Size(n)
  {
  }

  /** The reversal in place of str[from..to]. */
  method ReverseSpan(str: array<char>, from: nat, to: nat)
    requires from <= to <= str.Length
    modifies str
    ensures |Reverse(old(str[..])[from..to])| == to - from
    ensures str[..] == Overwritten(old(str[..]), from, Reverse(old(str[..])[from..to]))
  {
    var start, end := from, to - 1;
    ghost var s0 := str[..];
    while start < end
      invariant from <= start && start - from == to - 1 - end && start <= end + 1
      invariant forall k :: 0 <= k < str.Length && !(from <= k < start) && !(end < k < to) ==> str[k] == s0[k]
      invariant forall k :: from <= k < start || end < k < to ==> str[k] == s0[from + to - 1 - k]
    {
      var tmp := str[start];
      str[start] := str[end];
      str[end] := tmp;
      start := start + 1;
      end := end - 1;
    }
    ReverseSpanIs(s0, str[..], from, to);
  }

  lemma ReverseSpanIs(s: string, t: string, from: nat, to: nat)
    requires from <= to <= |s| == |t|
    requires forall k :: 0 <= k < |s| && !(from <= k < to) ==> t[k] == s[k]
    requires forall k :: from <= k < to ==> t[k] == s[from + to - 1 - k]
    ensures |Reverse(s[from..to])| == to - from && t == Overwritten(s, from, Reverse(s[from..to]))
  {
    ReverseAt(s[from..to]);
  }

  /** ltostr: str receives the text and a terminator. */
  method LongToString(v: int, str: array<char>)
    requires -0x8000_0000 <= v < 0x8000_0000 && |Ltostr(v)| < str.Length
    modifies str
    ensures str[..] == Ltostr(v) + ['\0'] + old(str[|Ltostr(v)| + 1..])
  {
    hide Written, Overwritten, Reverse, Wrap, Ltostr;
    LtostrIs(v);
    ghost var s0 := str[..];
    var value, start := v, 0;
    if v < 0 {
      str[0] := '-';
      value, start := Wrap(-v), 1;
    }
    ghost var s1 := str[..];
    var s := WriteDigits(value, str, start);
    TextMade(s0, s1, start, Written(value));
    ReverseSpan(str, start, s);
    str[s] := '\0';
  }

  lemma LtostrIs(v: int)
    ensures var digits := Written(if v < 0 then Wrap(-v) else v);
      |Reverse(digits)| == |digits| && Ltostr(v) == (if v < 0 then "-" else "") + Reverse(digits)
  {
    ReverseAt(Written(if v < 0 then Wrap(-v) else v));
    EmptyEnds(Reverse(Written(v)));
  }

  lemma TextMade(s0: string, s1: string, start: nat, digits: string)
    requires (start == 0 && s1 == s0) || (start == 1 && s0 != "" && s1 == s0[0 := '-'])
    requires start + |digits| < |s0| && |Reverse(digits)| == |digits|
    ensures var s2 := Overwritten(s1, start, digits);
      && s2[start..start + |digits|] == digits
      && Overwritten(s2, start, Reverse(digits))[start + |digits| := '\0'] ==
         (if start == 1 then "-" else "") + Reverse(digits) + ['\0'] + s0[start + |digits| + 1..]
  {
  }

  // ----- formatting, then parsing -----

  /** n has no zero digit above its units. */
  predicate NoInnerZero(n: nat) { n < 10 || (n / 10 % 10 != 0 && NoInnerZero(n / 10)) }

  /** What the digits written say. */
  function Low(n: nat): nat { if n / 10 % 10 != 0 then Low(n / 10) * 10 + n % 10 else n % 10 }

  lemma {:induction false} LowIs(n: nat)
    ensures Low(n) <= n && (Low(n) == n <==> NoInnerZero(n))
  {
    if n / 10 % 10 != 0 {
      LowIs(n / 10);
    }
  }

  lemma {:induction false} WrittenValue(n: nat)
    ensures Digital(Reverse(Written(n)), 10) && Reverse(Written(n)) != "" && ValueOf(Reverse(Written(n)), 10) == Low(n)
  {
    hide DigitOf, RemChar, Reverse, Written, Digital, ValueOf;
    var (m, c) := (n / 10, RemChar(n));
    UnitsDigit(n);
    WrittenBackwards(n);
    if m % 10 != 0 {
      WrittenValue(m);
      MoreDigits(Reverse(Written(m)), c, 10);
    } else {
      NoDigits();
      MoreDigits("", c, 10);
    }
  }

  lemma UnitsDigit(n: nat)
    ensures DigitOf(RemChar(n)) == n % 10
  {
  }

  lemma NoDigits()
    ensures Digital("", 10) && ValueOf("", 10) == 0
  {
  }

  /** The reversed text ends with the units. */
  lemma WrittenBackwards(n: nat)
    ensures Reverse(Written(n)) == (if n / 10 % 10 != 0 then Reverse(Written(n / 10)) else "") + [RemChar(n)]
  {
    hide RemChar;
    var rest := if n / 10 % 10 != 0 then Written(n / 10) else "";
    assert Written(n) == [RemChar(n)] + rest;
    assert ([RemChar(n)] + rest)[1..] == rest;
  }

  /** strtol undoes ltostr exactly for the values above LONG_MIN with no zero digit above the units. */
  lemma FormatThenParse(v: int)
    requires -0x8000_0000 <= v < 0x8000_0000
    ensures Strtol(Ltostr(v), 10).0 == v <==> v > -0x8000_0000 && NoInnerZero(if v < 0 then -v else v)
  {
    if v == -0x8000_0000 {
      LeastLong();
    } else {
      var n := if v < 0 then -v else v;
      ParsedBack(v, n);
      LowIs(n);
      WrapSmall(0 - Low(n));
      WrapSmall(Low(n));
      hide Strtol, Ltostr, Low, NoInnerZero, Wrap;
    }
  }

  lemma ParsedBack(v: int, n: nat)
    requires -0x8000_0000 < v < 0x8000_0000 && n == if v < 0 then -v else v
    ensures Strtol(Ltostr(v), 10).0 == Wrap(if v < 0 then 0 - Low(n) else Low(n))
  {
    WrapSmall(n);
    var s := Reverse(Written(n));
    EmptyBetween("", s);
    hide Strtol, Written, Reverse, Repeat, Wrap, Low;
    WrittenValue(n);
    StrtolReads(Ltostr(v), "", v < 0, s, 10);
  }

  /** The negation of LONG_MIN wraps to itself, and its remainders are no digits. */
  lemma LeastLong()
    ensures Strtol(Ltostr(-0x8000_0000), 10).0 == 0
  {
    assert Wrap(0x8000_0000) == -0x8000_0000;
    var w := Written(-0x8000_0000);
    WrittenNegative(-0x8000_0000);
    ReverseAt(w);
    var text := Ltostr(-0x8000_0000);
    assert text[0] == '-' && text[1] == w[|w| - 1];
    assert SkipSpace(text, 0) == 0;
    assert Prefix(text, 1, 10) == (1, 10);
    assert Accumulate(text, 1, 10, 0) == (0, 1);
  }

  lemma {:induction false} WrittenNegative(n: int)
    requires n < 0 && Rem(n) != 0
    ensures forall k :: 0 <= k < |Written(n)| ==> DigitOf(Written(n)[k]) == 36
    decreases -n
  {
    var c := RemChar(n);
    assert c < '0' && DigitOf(c) == 36;
    if Rem(Quot(n)) != 0 {
      WrittenNegative(Quot(n));
      assert Written(n) == [c] + Written(Quot(n));
    }
  }

  // ----- the names of the finished semaphores -----

  /** strcconcat of "cust_finished" and the id. */
  function Name(id: nat): string { "cust_finished" + Ltostr(id) }

  /** The names of ids 0 .. n-1 are all different exactly for n up to 100: 100 prints as 0. */
  lemma NamesDistinctIff(n: nat)
    requires n < 0x8000_0000
    ensures (forall i: nat, j: nat :: i < j < n ==> Name(i) != Name(j)) <==> n <= 100
  {
    if n <= 100 {
      forall i: nat, j: nat | i < j < n ensures Name(i) != Name(j) {
        NameTells(i);
        NameTells(j);
      }
    } else {
      assert Written(100) == [RemChar(100)] && RemChar(100) == RemChar(0) && Written(0) == [RemChar(0)];
      assert Name(0) == Name(100);
    }
  }

  lemma NameTells(i: nat)
    requires i < 100
    ensures Strtol(Name(i)[|"cust_finished"|..], 10).0 == i
  {
    assert Name(i)[|"cust_finished"|..] == Ltostr(i);
    assert NoInnerZero(i / 10);
    FormatThenParse(i);
  }
}
