/**
 * What strtol reads and what ltostr and printnum write, told on characters and digits: blanks, signs,
 * prefixes, bases, and where reading ends.
 */
module NumberForms {
  import opened Sequences
  import opened Numbers

  /** c is the digit d: '0' to '9', then letters of either case. */
  predicate IsDigit(c: char, d: nat) {
    if d < 10 then c as int == '0' as int + d
    else d < 36 && (c as int == 'a' as int + (d - 10) || c as int == 'A' as int + (d - 10))
  }

  /** The characters of s are the digits ds, all below the base. */
  predicate Spells(s: string, ds: seq<nat>, base: nat) {
    |s| == |ds| && forall i :: 0 <= i < |s| ==> ds[i] < base && IsDigit(s[i], ds[i])
  }

  /** The number that digits ds, most significant first, add to v. */
  function Horner(v: int, ds: seq<nat>, base: nat): int
    decreases |ds|
  {
    if ds == [] then v else Horner(v * base + ds[0], ds[1..], base)
  }

  /** No digit of the base comes first in rest. */
  ghost predicate Ends(rest: string, base: nat) {
    rest == "" || forall d: nat :: d < base ==> !IsDigit(rest[0], d)
  }

  lemma DigitOfIs(c: char)
    ensures forall d: nat :: d < 36 ==> (IsDigit(c, d) <==> DigitOf(c) == d)
  {
  }

  lemma NoDigit(c: char, base: nat)
    requires base <= 36 && forall d: nat :: d < base ==> !IsDigit(c, d)
    ensures DigitOf(c) >= base
  {
    var d := DigitOf(c);
    DigitOfIs(c);
    assert d < 36 ==> IsDigit(c, d);
  }

  /** The digit loop reads ds on top of v, in 32 bits, and stops at rest. */
  lemma {:induction false} AccumulateIs(pre: string, s: string, ds: seq<nat>, rest: string, base: nat, v: int)
    requires base <= 36 && Spells(s, ds, base) && Ends(rest, base)
    ensures Accumulate(pre + s + rest, |pre|, base, Wrap(v)) == (Wrap(Horner(v, ds, base)), |pre| + |s|)
    decreases |s|
  {
    var text := pre + s + rest;
    if s == "" {
      if rest != "" {
        assert text[|pre|] == rest[0];
        NoDigit(rest[0], base);
      }
    } else {
      var (c, d) := (s[0], ds[0]);
      assert text[|pre|] == c;
      DigitOfIs(c);
      WrapOf(v, base, d);
      assert s == [c] + s[1..] && text == (pre + [c]) + s[1..] + rest;
      AccumulateIs(pre + [c], s[1..], ds[1..], rest, base, v * base + d);
    }
  }

  /** The sign character, if any, and the prefix; b is the base they lead to. */
  predicate Leads(base: nat, prefix: string, s: string, rest: string, b: nat) {
    if prefix == "0x" then (base == 0 || base == 16) && b == 16
    else if prefix == "0" then base == 0 && b == 8 && CharAt(s + rest, 0) != 'x'
    else prefix == "" && if base == 0 then b == 10 && CharAt(s + rest, 0) != '0'
                         else b == base && !(base == 16 && CharAt(s + rest, 0) == '0' && CharAt(s + rest, 1) == 'x')
  }

  predicate Blank(c: char) { c == ' ' || c == '\t' }

  /** With no sign, what follows the blanks is neither a blank nor a sign. */
  predicate Unsigned(sign: string, body: string) {
    sign == "" ==> !Blank(CharAt(body, 0)) && CharAt(body, 0) != '+' && CharAt(body, 0) != '-'
  }

  /**
   * strtol reads any blanks, an optional sign, "0x" in base 0 or 16 or a leading zero in base 0, and
   * digits of the base these lead to. The value is what the digits say, in 32 bits and with the sign,
   * and reading ends at the first character that is no such digit.
   */
  lemma StrtolForms(text: string, blanks: string, sign: string, prefix: string, s: string, ds: seq<nat>, rest: string, base: nat, b: nat)
    requires text == blanks + sign + prefix + s + rest && base <= 36
    requires (forall i :: 0 <= i < |blanks| ==> Blank(blanks[i])) && sign in {"", "+", "-"}
    requires Leads(base, prefix, s, rest, b) && Unsigned(sign, prefix + s + rest)
    requires Spells(s, ds, b) && Ends(rest, b)
    ensures var n := Horner(0, ds, b);
      Strtol(text, base) == (Wrap(if sign == "-" then -n else n), |blanks| + |sign| + |prefix| + |s|)
  {
    hide Accumulate, Horner, Wrap, SkipSpace, Prefix, CharAt, Leads, Unsigned, Spells, Ends, Blank;
    var body := prefix + s + rest;
    Regroup(blanks, sign, prefix, s, rest);
    FirstNotBlank(sign, body);
    SkipAll(blanks, sign + body, 0);
    SignRead(blanks, sign, body);
    PrefixRead(blanks + sign, prefix, s, rest, base, b);
    AccumulateIs(blanks + sign + prefix, s, ds, rest, b, 0);
    WrapSmall(0);
    WrapNegated(Horner(0, ds, b));
  }

  lemma Regroup(blanks: string, sign: string, prefix: string, s: string, rest: string)
    ensures blanks + sign + prefix + s + rest == blanks + (sign + (prefix + s + rest))
    ensures blanks + sign + prefix + s + rest == blanks + sign + (prefix + s + rest)
  {
  }

  lemma FirstNotBlank(sign: string, body: string)
    requires sign in {"", "+", "-"} && Unsigned(sign, body)
    ensures !Blank(CharAt(sign + body, 0))
  {
    if sign == "" { assert sign + body == body; } else { assert (sign + body)[0] == sign[0]; }
  }

  lemma {:induction false} SkipAll(blanks: string, more: string, i: nat)
    requires i <= |blanks| && (forall j :: 0 <= j < |blanks| ==> Blank(blanks[j])) && !Blank(CharAt(more, 0))
    ensures SkipSpace(blanks + more, i) == |blanks|
    decreases |blanks| - i
  {
    if i < |blanks| {
      assert (blanks + more)[i] == blanks[i];
      SkipAll(blanks, more, i + 1);
    } else if more != "" {
      assert (blanks + more)[i] == more[0];
    }
  }

  lemma SignRead(blanks: string, sign: string, body: string)
    requires sign in {"", "+", "-"} && Unsigned(sign, body)
    ensures var c := CharAt(blanks + sign + body, |blanks|);
      && (c == '-' <==> sign == "-") && (c == '+' <==> sign == "+")
  {
    var text := blanks + sign + body;
    if sign != "" { assert text[|blanks|] == sign[0]; }
    else if body != "" { assert text[|blanks|] == body[0]; }
  }

  lemma PrefixRead(pre: string, prefix: string, s: string, rest: string, base: nat, b: nat)
    requires Leads(base, prefix, s, rest, b) && base <= 36
    ensures b <= 36
    ensures Prefix(pre + prefix + s + rest, |pre|, base) == (|pre| + |prefix|, b)
  {
    var (text, body) := (pre + prefix + s + rest, prefix + s + rest);
    assert text == pre + body;
    assert CharAt(text, |pre|) == CharAt(body, 0) && CharAt(text, |pre| + 1) == CharAt(body, 1);
    assert body == prefix + (s + rest);
  }

  // ----- what is written -----

  /** Digit i of n, the units being digit 0. */
  function DigitAt(n: nat, base: nat, i: nat): nat
    requires 2 <= base
  {
    if i == 0 then n % base else DigitAt(n / base, base, i - 1)
  }

  /** n without its last i digits. */
  function Shifted(n: nat, base: nat, i: nat): nat
    requires 2 <= base
  {
    if i == 0 then n else Shifted(n / base, base, i - 1)
  }

  /** c is the digit d as printnum writes it: letters are small. */
  predicate SmallDigit(c: char, d: nat) {
    if d < 10 then c as int == '0' as int + d else d < 16 && c as int == 'a' as int + (d - 10)
  }

  lemma DigitCharSmall(d: nat)
    requires d < 16
    ensures SmallDigit(DigitChar(d), d)
  {
  }

  /** The numeral is all digits of the number, in small letters, with no zero in front unless it is zero. */
  lemma {:induction false} NumeralDigits(num: nat, base: nat)
    requires 2 <= base <= 16
    ensures var s := Numeral(num, base);
      && (forall i :: 0 <= i < |s| ==> SmallDigit(s[|s| - 1 - i], DigitAt(num, base, i)))
      && Shifted(num, base, |s|) == 0 && (num > 0 ==> DigitAt(num, base, |s| - 1) != 0) && (num == 0 ==> |s| == 1)
  {
    var s := Numeral(num, base);
    DigitCharSmall(num % base);
    if num >= base {
      var t := Numeral(num / base, base);
      NumeralDigits(num / base, base);
      assert num / base > 0 && s == t + [DigitChar(Unit(num, base))];
      forall i | 0 <= i < |s| ensures SmallDigit(s[|s| - 1 - i], DigitAt(num, base, i)) {
        if i > 0 { assert s[|s| - 1 - i] == t[|t| - 1 - (i - 1)]; }
      }
    } else {
      assert num / base == 0 && num % base == num;
      assert s == "" + [DigitChar(Unit(num, base))];
      assert Shifted(num, base, 1) == Shifted(num / base, base, 0);
    }
  }

  /** The digits ltostr's loop writes: those of n from the units up to the first zero above them. */
  lemma {:induction false} WrittenDigits(n: nat)
    ensures var w := Written(n);
      && (forall i :: 0 <= i < |w| ==> IsDigit(w[i], DigitAt(n, 10, i)))
      && (forall i :: 1 <= i < |w| ==> DigitAt(n, 10, i) != 0) && DigitAt(n, 10, |w|) == 0
  {
    var w := Written(n);
    assert IsDigit(RemChar(n), n % 10);
    if n / 10 % 10 != 0 {
      var t := Written(n / 10);
      WrittenDigits(n / 10);
      assert w == [RemChar(n)] + t;
      forall i | 0 <= i < |w| ensures IsDigit(w[i], DigitAt(n, 10, i)) && (i >= 1 ==> DigitAt(n, 10, i) != 0) {
        if i > 0 { assert w[i] == t[i - 1] && DigitAt(n, 10, i) == DigitAt(n / 10, 10, i - 1); }
      }
    } else {
      assert w == [RemChar(n)];
      assert DigitAt(n, 10, 1) == DigitAt(n / 10, 10, 0);
    }
  }

  /**
   * What ltostr writes for a value above LONG_MIN: a minus sign for a negative one, then its decimal
   * digits from the first zero above the units on, not including it. Only values without such a zero
   * are written in full.
   */
  lemma LtostrDigits(v: int) returns (t: string)
    requires -0x8000_0000 < v < 0x8000_0000
    ensures Ltostr(v) == (if v < 0 then "-" else "") + t && LowDigits(t, if v < 0 then -v else v)
  {
    hide Written, Reverse, Ltostr, Wrap, LowDigits;
    var n := if v < 0 then -v else v;
    WrapSmall(n);
    LtostrIs(v);
    t := Reverse(Written(n));
    BackwardsDigits(n);
  }

  lemma BackwardsDigits(n: nat)
    ensures LowDigits(Reverse(Written(n)), n)
  {
    hide Written, Reverse, IsDigit, DigitAt;
    var (w, t) := (Written(n), Reverse(Written(n)));
    WrittenDigits(n);
    ReverseAt(w);
    forall i | 0 <= i < |t| ensures IsDigit(t[|t| - 1 - i], DigitAt(n, 10, i)) { assert t[|t| - 1 - i] == w[i]; }
  }

  /** t is digits |t| - 1 to 0 of n; above the units none of these is zero, and the next one is. */
  ghost predicate LowDigits(t: string, n: nat) {
    && t != "" && (forall i :: 0 <= i < |t| ==> IsDigit(t[|t| - 1 - i], DigitAt(n, 10, i)))
    && (forall i :: 1 <= i < |t| ==> DigitAt(n, 10, i) != 0) && DigitAt(n, 10, |t|) == 0
  }

  /** LONG_MIN, whose negation is itself: each character lies as far below '0' as its digit says. */
  lemma LeastLongText()
    ensures Ltostr(-0x8000_0000) == "-" + "./,),(-*,("
  {
    var s0 := Written(-2);
    assert Written(-2) == ".";
    OneStep(-21, -2, '/');
    OneStep(-214, -21, ',');
    OneStep(-2147, -214, ')');
    OneStep(-21474, -2147, ',');
    OneStep(-214748, -21474, '(');
    OneStep(-2147483, -214748, '-');
    OneStep(-21474836, -2147483, '*');
    OneStep(-214748364, -21474836, ',');
    OneStep(-2147483648, -214748364, '(');
    assert Wrap(0x8000_0000) == -0x8000_0000;
    ReverseAt(Written(-2147483648));
    hide Written, Reverse;
    assert Written(-2147483648) == "(,*-(,),/.";
  }

  lemma OneStep(n: int, m: int, c: char)
    requires n < 0 && Quot(n) == m && RemChar(n) == c && Rem(m) != 0
    ensures Written(n) == [c] + Written(m)
  {
  }
}
