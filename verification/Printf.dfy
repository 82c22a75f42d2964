/** number and skip_atoi of libs/libc/printf.c. */
module Printf {
  import opened Words

  /** type: ZEROPAD, SIGN, PLUS, SPACE, LEFT, SMALL, SPECIAL. */
  datatype Flags = Flags(zeropad: bool, sign: bool, plus: bool, space: bool, left: bool, small: bool, special: bool)

  const LONG_MIN := -0x8000_0000
  const LONG_MAX := 0x7FFF_FFFF

  // ----- digits

  /** digits[d] | locase */
  function Digit(d: nat, small: bool): char
    requires d < 16
  {
    if d < 10 then (48 + d) as char else if small then (87 + d) as char else (55 + d) as char
  }

  /** The digits of n, most significant first; "0" for zero. */
  function Digits(n: nat, base: nat, small: bool): (s: string)
    requires 2 <= base <= 16
    ensures |s| >= 1
  {
    if n < base then [Digit(n, small)] else Digits(n / base, base, small) + [Digit(n % base, small)]
  }

  function Fill(n: int, c: char): (s: string)
    ensures |s| == if n > 0 then n else 0
    ensures forall i | 0 <= i < |s| :: s[i] == c
  {
    if n <= 0 then [] else seq(n, _ => c)
  }

  lemma FillNext(n: int, c: char)
    requires n >= 0
    ensures Fill(n + 1, c) == Fill(n, c) + [c] && Fill(n + 1, c) == [c] + Fill(n, c)
  {}

  // ----- what number prints

  /** The number without its sign: the two's complement word when printed unsigned. */
  function Magnitude(num: int, f: Flags): (m: nat)
    requires LONG_MIN <= num <= LONG_MAX && !(f.sign && num == LONG_MIN)
    ensures m < TWO32
  {
    if f.sign && num < 0 then -num else if num < 0 then num + TWO32 else num
  }

  function Sign(num: int, f: Flags): string {
    if !f.sign then "" else if num < 0 then "-" else if f.plus then "+" else if f.space then " " else ""
  }

  function Prefix(base: nat, f: Flags): string {
    if !f.special then "" else if base == 8 then "0" else if base == 16 then (if f.small then "0x" else "0X") else ""
  }

  function Max(a: int, b: int): int { if a > b then a else b }

  /** The digits, with zeros in front up to the precision. */
  function Body(num: int, base: nat, precision: int, f: Flags): string
    requires 2 <= base <= 16 && LONG_MIN <= num <= LONG_MAX && !(f.sign && num == LONG_MIN)
  {
    var ds := Digits(Magnitude(num, f), base, f.small);
    Fill(precision - |ds|, '0') + ds
  }

  /** The field: padding outside on the right or left, or zeros between prefix and digits. */
  function Formatted(num: int, base: nat, size: int, precision: int, f: Flags): string
    requires 2 <= base <= 16 && LONG_MIN <= num <= LONG_MAX && !(f.sign && num == LONG_MIN)
  {
    var front := Sign(num, f) + Prefix(base, f);
    var body := Body(num, base, precision, f);
    var pad := size - |front| - |body|;
    if f.left then front + body + Fill(pad, ' ')
    else if f.zeropad then front + Fill(pad, '0') + body
    else Fill(pad, ' ') + front + body
  }

  /** The length is exactly the larger of the field width and what there is to print. */
  lemma FormattedLength(num: int, base: nat, size: int, precision: int, f: Flags)
    requires 2 <= base <= 16 && LONG_MIN <= num <= LONG_MAX && !(f.sign && num == LONG_MIN)
    ensures |Formatted(num, base, size, precision, f)|
            == Max(size, |Sign(num, f)| + |Prefix(base, f)|
                   + Max(|Digits(Magnitude(num, f), base, f.small)|, precision))
  {}

  /** tmp has room: a 32-bit number has at most 32 digits. */
  lemma {:induction false} DigitsFit(n: nat, base: nat, small: bool, k: nat)
    requires 2 <= base <= 16 && n < Pow2(k)
    ensures |Digits(n, base, small)| <= Max(1, k)
  {
    if n >= base {
      Halved(n, base);
      DigitsFit(n / base, base, small, k - 1);
    }
  }

  lemma Halved(n: nat, base: nat)
    requires base >= 2
    ensures n / base <= n / 2
  {
    var q := n / base;
    assert n == q * base + n % base;
    Doubled(q, base);
  }

  lemma Doubled(q: nat, base: nat)
    requires base >= 2
    ensures q * base >= 2 * q
  {}

  // ----- the loops of number

  /** The digits come out least significant first. */
  function Reversed(s: string): (r: string)
    ensures |r| == |s| && forall i | 0 <= i < |s| :: r[i] == s[|s| - 1 - i]
  {
    seq(|s|, i requires 0 <= i < |s| => s[|s| - 1 - i])
  }

  lemma ReversedAppend(s: string, c: char)
    ensures Reversed(s + [c]) == [c] + Reversed(s)
  {}

  /** The digits of what is left of the number; none for zero. */
  function Left(n: nat, base: nat, small: bool): string
    requires 2 <= base <= 16
  {
    if n == 0 then "" else Digits(n, base, small)
  }

  lemma LeftStep(n: nat, base: nat, small: bool)
    requires 2 <= base <= 16 && n > 0
    ensures Left(n, base, small) == Left(n / base, base, small) + [Digit(n % base, small)]
    ensures n / base < n
  {
    hide Digit, Digits;
    DigitsStep(n, base, small);
    SmallQuotient(n, base);
  }

  lemma SmallQuotient(n: nat, base: nat)
    requires base > 0
    ensures n / base == 0 <==> n < base
    ensures n < base ==> n % base == n
  {}

  /** tmp[0..i] */
  method CollectDigits(num: nat, base: nat, small: bool) returns (tmp: string)
    requires 2 <= base <= 16
    ensures tmp == Reversed(Digits(num, base, small))
  {
    hide Digits, Digit;
    tmp := [];
    if num == 0 {
      tmp := tmp + ['0'];
      ZeroDigits(base, small);
    } else {
      var n: nat := num;
      while n != 0
        invariant Digits(num, base, small) == Left(n, base, small) + Reversed(tmp)
        decreases n
      {
        hide Left;
        LeftStep(n, base, small);
        ReversedAppend(tmp, Digit(n % base, small));
        assert Left(n / base, base, small) + [Digit(n % base, small)] + Reversed(tmp)
            == Left(n / base, base, small) + ([Digit(n % base, small)] + Reversed(tmp));
        tmp := tmp + [Digit(n % base, small)];
        n := n / base;
      }
      ReversedTwice(tmp, Digits(num, base, small));
    }
  }

  lemma ZeroDigits(base: nat, small: bool)
    requires 2 <= base <= 16
    ensures Digits(0, base, small) == ['0'] == Reversed(['0'])
  {}

  lemma ReversedTwice(tmp: string, ds: string)
    requires ds == Reversed(tmp)
    ensures tmp == Reversed(ds)
  {}

  /** while (size-- > 0) *str++ = c; */
  method Pad(str: string, size: int, c: char) returns (out: string, size': int)
    ensures out == str + Fill(size, c) && size' < 0
  {
    out, size' := str, size;
    ghost var n := 0;
    while size' > 0
      invariant out == str + Fill(n, c) && n >= 0 && size' + n == size && (size > 0 ==> size' >= 0)
      invariant (size <= 0 ==> n == 0)
    {
      FillNext(n, c);
      out := out + [c];
      size' := size' - 1;
      n := n + 1;
    }
    size' := size' - 1;
  }

  /** while (i-- > 0) *str++ = tmp[i]; */
  method PutBack(str: string, tmp: string) returns (out: string)
    ensures out == str + Reversed(tmp)
  {
    out := str;
    var i := |tmp|;
    while i > 0
      invariant 0 <= i <= |tmp| && out == str + Reversed(tmp)[..|tmp| - i]
    {
      i := i - 1;
      assert Reversed(tmp)[..|tmp| - i] == Reversed(tmp)[..|tmp| - i - 1] + [tmp[i]];
      out := out + [tmp[i]];
    }
    assert Reversed(tmp)[..|tmp|] == Reversed(tmp);
  }

  /** Zeros up to the precision, then the digits. */
  method PutBody(str: string, tmp: string, precision: int) returns (out: string)
    requires precision >= |tmp|
    ensures out == str + (Fill(precision - |tmp|, '0') + Reversed(tmp))
  {
    var p := precision;
    out := str;
    ghost var n := 0;
    while |tmp| < p
      invariant |tmp| <= p && p + n == precision && n >= 0 && out == str + Fill(n, '0')
    {
      FillNext(n, '0');
      out := out + ['0'];
      p := p - 1;
      n := n + 1;
    }
    out := PutBack(out, tmp);
  }

  /** The sign, and the width left for the rest. */
  method TakeSign(num: int, size0: int, f: Flags) returns (sign: string, size: int)
    ensures sign == Sign(num, f) && size == size0 - |sign|
  {
    sign, size := "", size0;
    if f.sign {
      if num < 0 {
        sign, size := "-", size - 1;
      } else if f.plus {
        sign, size := "+", size - 1;
      } else if f.space {
        sign, size := " ", size - 1;
      }
    }
  }

  method TakePrefix(base: nat, size0: int, f: Flags) returns (size: int)
    ensures size == size0 - |Prefix(base, f)|
  {
    size := size0;
    if f.special {
      if base == 16 {
        size := size - 2;
      } else if base == 8 {
        size := size - 1;
      }
    }
  }

  method PutPrefix(str: string, base: nat, f: Flags) returns (out: string)
    ensures out == str + Prefix(base, f)
  {
    out := str;
    if f.special {
      if base == 8 {
        out := out + "0";
      } else if base == 16 {
        out := out + "0";
        out := out + if f.small then "x" else "X";
      }
    }
  }

  /** Left padding, sign, prefix and zero padding. */
  method EmitFront(str: string, sign: string, base: nat, size0: int, f: Flags) returns (out: string, size: int)
    ensures out == str + (Before(size0, f) + (sign + Prefix(base, f)) + Between(size0, f))
    ensures if f.left then size == size0 else size < 0
  {
    hide Fill, Prefix;
    var zeropad := f.zeropad && !f.left;
    var c := if zeropad then '0' else ' ';
    FillNone();
    out, size := str, size0;
    if !zeropad && !f.left {
      out, size := Pad(out, size, ' ');
    }
    assert out == str + Before(size0, f);
    if sign != "" {
      out := out + sign;
    }
    out := PutPrefix(out, base, f);
    ghost var mid := size;
    if !f.left {
      out, size := Pad(out, size, c);
    }
    assert Between(size0, f) == if !f.left then Fill(mid, c) else "";
  }

  function Before(size: int, f: Flags): string { if !f.zeropad && !f.left then Fill(size, ' ') else "" }

  function Between(size: int, f: Flags): string { if f.zeropad && !f.left then Fill(size, '0') else "" }

  function After(size: int, f: Flags): string { if f.left then Fill(size, ' ') else "" }

  /** number; false stands for the null pointer. */
  method Number(str: string, num: int, base: int, size0: int, precision0: int, f: Flags) returns (ok: bool, out: string)
    requires LONG_MIN <= num <= LONG_MAX && !(f.sign && num == LONG_MIN)
    ensures ok <==> 2 <= base <= 16
    ensures ok ==> out == str + Formatted(num, base, size0, precision0, f)
  {
    hide Digits, Fill, Magnitude, Formatted, Body, Sign, Prefix, Before, Between;
    if base < 2 || base > 16 {
      return false, str;
    }
    var sign, size := TakeSign(num, size0, f);
    size := TakePrefix(base, size, f);
    var tmp := CollectDigits(Magnitude(num, f), base, f.small);
    ReversedAgain(tmp, Digits(Magnitude(num, f), base, f.small));
    var precision := if |tmp| > precision0 then |tmp| else precision0;
    size := size - precision;
    BodyIs(num, base, precision0, f, precision, tmp);
    ghost var pad := size;
    out, size := EmitFront(str, sign, base, size, f);
    out := PutBody(out, tmp, precision);
    FillNone();
    assert Fill(size, ' ') == After(pad, f);
    out, size := Pad(out, size, ' ');
    ok := true;
    Whole(num, base, size0, precision0, f, pad);
    Assembled(str, Before(pad, f) + (sign + Prefix(base, f)) + Between(pad, f), Body(num, base, precision0, f),
              After(pad, f));
  }

  lemma FillNone()
    ensures forall n, c | n <= 0 :: Fill(n, c) == []
  {}

  lemma BodyIs(num: int, base: nat, precision0: int, f: Flags, precision: int, tmp: string)
    requires 2 <= base <= 16 && LONG_MIN <= num <= LONG_MAX && !(f.sign && num == LONG_MIN)
    requires Reversed(tmp) == Digits(Magnitude(num, f), base, f.small) && |tmp| == |Reversed(tmp)|
    requires precision == if |tmp| > precision0 then |tmp| else precision0
    ensures Body(num, base, precision0, f) == Fill(precision - |tmp|, '0') + Reversed(tmp)
    ensures |Body(num, base, precision0, f)| == precision
  {
    hide Digits;
  }

  lemma Assembled(str: string, front: string, body: string, d: string)
    ensures str + front + body + d == str + (front + body + d)
  {}

  /** At most one of the three paddings is there. */
  lemma Whole(num: int, base: nat, size0: int, precision0: int, f: Flags, pad: int)
    requires 2 <= base <= 16 && LONG_MIN <= num <= LONG_MAX && !(f.sign && num == LONG_MIN)
    requires pad == size0 - |Sign(num, f)| - |Prefix(base, f)| - |Body(num, base, precision0, f)|
    ensures Before(pad, f) + (Sign(num, f) + Prefix(base, f)) + Between(pad, f) + Body(num, base, precision0, f)
        + After(pad, f)
            == Formatted(num, base, size0, precision0, f)
  {
    hide Digits, Body, Sign, Prefix, Fill;
  }

  lemma ReversedAgain(tmp: string, ds: string)
    requires tmp == Reversed(ds)
    ensures Reversed(tmp) == ds && |tmp| == |ds|
  {}

  // ----- skip_atoi

  predicate IsDigit(c: char) { '0' <= c <= '9' }

  function DigitOf(c: char): (d: nat)
    requires IsDigit(c)
  {
    c as int - 48
  }

  /** The value of a run of digits. */
  function Value(s: string): nat
    requires forall i | 0 <= i < |s| :: IsDigit(s[i])
  {
    if s == [] then 0 else 10 * Value(s[..|s| - 1]) + DigitOf(s[|s| - 1])
  }

  /** What a 32-bit int keeps of x. */
  function Int32(x: int): int { (x + 0x8000_0000) % 0x1_0000_0000 - 0x8000_0000 }

  lemma Int32Same(x: int, k: int)
    ensures Int32(x + k * 0x1_0000_0000) == Int32(x)
  {}

  lemma Int32Step(x: int, c: int)
    ensures Int32(Int32(Int32(x) * 10 + c) - 48) == Int32(x * 10 + c - 48)
  {
    var k := -((x + 0x8000_0000) / 0x1_0000_0000);
    assert Int32(x) == x + k * 0x1_0000_0000;
    Int32Same(x * 10 + c, 10 * k);
    var y := x * 10 + c;
    var l := -((y + 0x8000_0000) / 0x1_0000_0000);
    assert Int32(y) == y + l * 0x1_0000_0000;
    Int32Same(y - 48, l);
  }

  /** skip_atoi: the value of the digits at p, as far as an int holds it, and where they end; s ends with a NUL. */
  method SkipAtoi(s: string, p: nat) returns (i: int, p': nat)
    requires p < |s| && s[|s| - 1] == '\0'
    ensures p <= p' < |s| && !IsDigit(s[p']) && (forall k | p <= k < p' :: IsDigit(s[k]))
    ensures i == Int32(Value(s[p..p']))
  {
    i, p' := 0, p;
    while IsDigit(s[p'])
      invariant p <= p' < |s| && (forall k | p <= k < p' :: IsDigit(s[k])) && i == Int32(Value(s[p..p']))
      decreases |s| - p'
    {
      assert s[p..p' + 1][..p' - p] == s[p..p'];
      Int32Step(Value(s[p..p']), s[p'] as int);
      i := Int32(Int32(i * 10 + s[p'] as int) - 48);
      p' := p' + 1;
    }
  }

  lemma {:induction false} DecimalDigits(n: nat, small: bool)
    ensures forall i | 0 <= i < |Digits(n, 10, small)| :: IsDigit(Digits(n, 10, small)[i])
    ensures Value(Digits(n, 10, small)) == n
  {
    if n >= 10 {
      DecimalDigits(n / 10, small);
      var ds := Digits(n, 10, small);
      assert ds[..|ds| - 1] == Digits(n / 10, 10, small);
    } else {
      assert Digits(n, 10, small)[..0] == [];
    }
  }

  lemma {:induction false} ZerosInFront(n: nat, s: string)
    requires forall i | 0 <= i < |s| :: IsDigit(s[i])
    ensures forall i | 0 <= i < |Fill(n, '0') + s| :: IsDigit((Fill(n, '0') + s)[i])
    ensures Value(Fill(n, '0') + s) == Value(s)
    decreases |s|, n
  {
    var t := Fill(n, '0') + s;
    if s != [] {
      assert t[..|t| - 1] == Fill(n, '0') + s[..|s| - 1];
      ZerosInFront(n, s[..|s| - 1]);
    } else if n > 0 {
      FillNext(n - 1, '0');
      assert t[..|t| - 1] == Fill(n - 1, '0') + s;
      ZerosInFront(n - 1, s);
    } else {
      assert t == s;
    }
  }

  /** What follows the digits does not matter as long as it does not begin with one. */
  predicate StopsWith(tail: string) { |tail| > 0 && tail[|tail| - 1] == '\0' && !IsDigit(tail[0]) }

  /** The field begins with the digits: no sign character, and no padding in front but zeros. */
  predicate Plain(n: nat, size: int, precision: int, f: Flags) {
    (f.sign ==> !f.plus && !f.space) && (f.left || f.zeropad || size <= Max(|Digits(n, 10, f.small)|, precision))
  }

  /** Printing in decimal and reading back gives the number, for all of [0, INT_MAX], exactly if the field begins
      with its digits or it is 0. */
  method ReadBack(n: nat, size: int, precision: int, f: Flags, tail: string) returns (i: int)
    requires n <= LONG_MAX && StopsWith(tail)
    ensures i == n <==> n == 0 || Plain(n, size, precision, f)
  {
    hide Digits, Fill, Formatted, Body, Run, Value;
    var ok, out := Number("", n, 10, size, precision, f);
    var s := out + tail;
    ghost var pad := size - |Body(n, 10, precision, f)|;
    ghost var run, rest := Run(n, size, precision, f), if f.left then Fill(pad, ' ') + tail else tail;
    if Plain(n, size, precision, f) {
      PlainFormat(n, size, precision, f);
      RunDigits(n, size, precision, f);
      assert s == run + rest;
      Ends(pad, tail, rest);
    } else {
      OddStart(n, size, precision, f);
      assert s[0] == out[0];
    }
    var p;
    i, p := SkipAtoi(s, 0);
    if Plain(n, size, precision, f) {
      RunEnds(run, rest, s, p);
    } else {
      NoDigits();
    }
  }

  lemma NoDigits()
    ensures Value("") == 0
  {}

  /** Any other field begins with a sign or a space. */
  lemma OddStart(n: nat, size: int, precision: int, f: Flags)
    requires n <= LONG_MAX && !Plain(n, size, precision, f)
    ensures var s := Formatted(n, 10, size, precision, f); |s| > 0 && !IsDigit(s[0])
  {
    hide Digits;
    var pad := size - |Sign(n, f)| - |Body(n, 10, precision, f)|;
    assert pad > 0 ==> Fill(pad, ' ')[0] == ' ';
  }

  lemma Ends(pad: int, tail: string, rest: string)
    requires StopsWith(tail) && (rest == tail || rest == Fill(pad, ' ') + tail)
    ensures StopsWith(rest)
  {}

  /** The digits read are exactly the run. */
  lemma RunEnds(run: string, rest: string, s: string, p: nat)
    requires (forall i | 0 <= i < |run| :: IsDigit(run[i])) && StopsWith(rest) && s == run + rest
    requires p < |s| && !IsDigit(s[p]) && forall k | 0 <= k < p :: IsDigit(s[k])
    ensures p == |run| && s[0..p] == run
  {
    assert s[|run|] == rest[0];
    forall k | 0 <= k < |run| ensures s[k] == run[k] && IsDigit(s[k]) {}
  }

  /** The digits an unsigned decimal field begins with. */
  function Run(n: nat, size: int, precision: int, f: Flags): string
    requires n <= LONG_MAX
  {
    var body := Body(n, 10, precision, f);
    if f.left || !f.zeropad then body else Fill(size - |body|, '0') + body
  }

  lemma PlainFormat(n: nat, size: int, precision: int, f: Flags)
    requires n <= LONG_MAX && Plain(n, size, precision, f)
    ensures var pad := size - |Body(n, 10, precision, f)|;
            Formatted(n, 10, size, precision, f) == Run(n, size, precision, f) + (if f.left then Fill(pad, ' ') else "")
  {
    hide Digits;
  }

  lemma RunDigits(n: nat, size: int, precision: int, f: Flags)
    requires n <= LONG_MAX
    ensures forall i | 0 <= i < |Run(n, size, precision, f)| :: IsDigit(Run(n, size, precision, f)[i])
    ensures Value(Run(n, size, precision, f)) == n
  {
    hide Digits;
    DecimalDigits(n, f.small);
    var ds := Digits(n, 10, f.small);
    ZerosInFront(Max(0, precision - |ds|), ds);
    assert Body(n, 10, precision, f) == Fill(Max(0, precision - |ds|), '0') + ds;
    var body := Body(n, 10, precision, f);
    ZerosInFront(Max(0, size - |body|), body);
    assert Fill(size - |body|, '0') == Fill(Max(0, size - |body|), '0');
  }

  // ----- reading any field back, as strtol reads it

  /** The value of a digit of either case; 16 for any other character. */
  function DigitValue(c: char): (d: nat)
    ensures d <= 16
  {
    if '0' <= c <= '9' then c as int - '0' as int
    else if 'A' <= c <= 'F' then c as int - 'A' as int + 10
    else if 'a' <= c <= 'f' then c as int - 'a' as int + 10
    else 16
  }

  /** The digits at the front of s, after those that gave acc. */
  function Reads(s: string, base: nat, acc: nat): nat {
    if s == "" || DigitValue(s[0]) >= base then acc else Reads(s[1..], base, acc * base + DigitValue(s[0]))
  }

  function SkipSpaces(s: string): string { if s != "" && s[0] == ' ' then SkipSpaces(s[1..]) else s }

  function AfterSign(s: string): string { if s != "" && (s[0] == '-' || s[0] == '+') then s[1..] else s }

  function AfterPrefix(s: string, base: nat): string {
    if base == 16 && |s| >= 2 && s[0] == '0' && (s[1] == 'x' || s[1] == 'X') then s[2..] else s
  }

  /** Spaces, a sign, for base 16 a prefix, and digits. */
  function ReadNumber(s: string, base: nat): int {
    var t := SkipSpaces(s);
    var n: int := Reads(AfterPrefix(AfterSign(t), base), base, 0);
    if t != "" && t[0] == '-' then -n else n
  }

  /** s does not go on with a digit or with an x. */
  predicate Ending(s: string) { s == "" || (DigitValue(s[0]) == 16 && s[0] != 'x' && s[0] != 'X') }

  predicate HexDigits(s: string) { forall i | 0 <= i < |s| :: DigitValue(s[i]) < 16 }

  lemma DigitBack(d: nat, small: bool)
    requires d < 16
    ensures DigitValue(Digit(d, small)) == d
  {}

  lemma ReadsOne(c: char, t: string, base: nat, acc: nat)
    requires DigitValue(c) < base
    ensures Reads([c] + t, base, acc) == Reads(t, base, acc * base + DigitValue(c))
  {
    assert ([c] + t)[1..] == t;
  }

  lemma ReadsEnding(s: string, base: nat, acc: nat)
    requires Ending(s) && base <= 16
    ensures Reads(s, base, acc) == acc
  {}

  lemma {:induction false} ReadsDigits(n: nat, base: nat, small: bool, t: string)
    requires 2 <= base <= 16
    ensures Reads(Digits(n, base, small) + t, base, 0) == Reads(t, base, n) && HexDigits(Digits(n, base, small))
  {
    hide Reads, Digit, DigitValue, Digits;
    DigitsStep(n, base, small);
    if n < base {
      DigitBack(n, small);
      ReadsOne(Digit(n, small), t, base, 0);
    } else {
      var q, c := n / base, Digit(n % base, small);
      DigitBack(n % base, small);
      assert Digits(n, base, small) + t == Digits(q, base, small) + ([c] + t);
      ReadsDigits(q, base, small, [c] + t);
      ReadsOne(c, t, base, q);
    }
  }

  lemma DigitsStep(n: nat, base: nat, small: bool)
    requires 2 <= base <= 16
    ensures if n < base then Digits(n, base, small) == [Digit(n, small)]
            else Digits(n, base, small) == Digits(n / base, base, small) + [Digit(n % base, small)]
    ensures n / base * base + n % base == n && n % base < 16 && (n >= base ==> n / base < n)
  {
    hide Digit;
    Rejoined(n, base);
    Halved(n, base);
  }

  lemma Rejoined(n: nat, base: nat)
    requires base > 0
    ensures n / base * base + n % base == n
  {}

  lemma {:induction false} ReadsZeros(k: int, base: nat, t: string)
    requires 2 <= base
    ensures Reads(Fill(k, '0') + t, base, 0) == Reads(t, base, 0)
    decreases k
  {
    if k > 0 {
      FillNext(k - 1, '0');
      assert Fill(k, '0') + t == ['0'] + (Fill(k - 1, '0') + t);
      ReadsOne('0', Fill(k - 1, '0') + t, base, 0);
      ReadsZeros(k - 1, base, t);
    } else {
      assert Fill(k, '0') + t == t;
    }
  }

  lemma {:induction false} SkipFill(k: int, t: string)
    ensures SkipSpaces(Fill(k, ' ') + t) == SkipSpaces(t)
    decreases k
  {
    if k > 0 {
      FillNext(k - 1, ' ');
      assert (Fill(k, ' ') + t)[1..] == Fill(k - 1, ' ') + t;
      SkipFill(k - 1, t);
    } else {
      assert Fill(k, ' ') + t == t;
    }
  }

  /** What follows the sign and the prefix: z more zeros, the body, r spaces and the tail. */
  function Numeral(num: int, base: nat, precision: int, f: Flags, z: int, r: int, tail: string): string
    requires 2 <= base <= 16 && LONG_MIN <= num <= LONG_MAX && !(f.sign && num == LONG_MIN)
  {
    Fill(z, '0') + (Body(num, base, precision, f) + (Fill(r, ' ') + tail))
  }

  lemma Shape(num: int, base: nat, size: int, precision: int, f: Flags, tail: string) returns (a: int, z: int, r: int)
    requires 2 <= base <= 16 && LONG_MIN <= num <= LONG_MAX && !(f.sign && num == LONG_MIN)
    ensures Formatted(num, base, size, precision, f) + tail
            == Fill(a, ' ') + (Sign(num, f) + (Prefix(base, f) + Numeral(num, base, precision, f, z, r, tail)))
  {
    hide Digits, Body, Sign, Prefix;
    var pad := size - |Sign(num, f) + Prefix(base, f)| - |Body(num, base, precision, f)|;
    a := if !f.left && !f.zeropad then pad else 0;
    z := if !f.left && f.zeropad then pad else 0;
    r := if f.left then pad else 0;
    FillNone();
    hide Fill;
  }

  /** The digits of the field read as the number without its sign. */
  lemma NumeralReads(num: int, base: nat, precision: int, f: Flags, z: int, r: int, tail: string)
    requires 2 <= base <= 16 && LONG_MIN <= num <= LONG_MAX && !(f.sign && num == LONG_MIN) && Ending(tail)
    ensures var s := Numeral(num, base, precision, f, z, r, tail);
            && Reads(s, base, 0) == Magnitude(num, f) && AfterPrefix(s, base) == s
            && s != "" && DigitValue(s[0]) < 16
  {
    hide Reads, Digits, AfterPrefix, Fill, Magnitude, DigitValue, Ending, HexDigits;
    var n := Magnitude(num, f);
    var ds, rest := Digits(n, base, f.small), Fill(r, ' ') + tail;
    var zeros := Fill(precision - |ds|, '0');
    ReadsDigits(n, base, f.small, rest);
    assert zeros + ds + rest == zeros + (ds + rest);
    ReadsZeros(precision - |ds|, base, ds + rest);
    ReadsZeros(z, base, zeros + ds + rest);
    EndingAfter(r, tail);
    ReadsEnding(rest, base, n);
    NotPrefixed(z, precision - |ds|, ds, rest, base);
  }

  lemma EndingAfter(r: int, tail: string)
    requires Ending(tail)
    ensures Ending(Fill(r, ' ') + tail)
  {
    assert r <= 0 ==> Fill(r, ' ') + tail == tail;
  }

  lemma NotPrefixed(z: int, y: int, ds: string, rest: string, base: nat)
    requires |ds| > 0 && HexDigits(ds) && Ending(rest)
    ensures var s := Fill(z, '0') + ((Fill(y, '0') + ds) + rest);
            AfterPrefix(s, base) == s && s != "" && DigitValue(s[0]) < 16
  {
    var s, t := Fill(z, '0') + (Fill(y, '0') + ds + rest), Fill(z, '0') + (Fill(y, '0') + ds);
    assert s == t + rest;
    assert HexDigits(t) && |t| > 0;
    hide Fill;
    assert DigitValue(s[0]) < 16;
    if |s| >= 2 { assert if |t| >= 2 then s[1] == t[1] else s[1] == rest[0]; }
  }

  /** Whatever the base, the width, the precision and the flags, strtol with that base reads the field back as the
      number, or as its two's complement word if it was printed unsigned. */
  lemma FieldReads(num: int, base: nat, size: int, precision: int, f: Flags, tail: string)
    requires 2 <= base <= 16 && LONG_MIN <= num <= LONG_MAX && !(f.sign && num == LONG_MIN) && Ending(tail)
    ensures ReadNumber(Formatted(num, base, size, precision, f) + tail, base)
            == if f.sign || num >= 0 then num else num + TWO32
  {
    var a, z, r := Shape(num, base, size, precision, f, tail);
    var s := Numeral(num, base, precision, f, z, r, tail);
    NumeralReads(num, base, precision, f, z, r, tail);
    SkipFill(a, Sign(num, f) + (Prefix(base, f) + s));
    hide Formatted, Numeral, Body, Digits, Reads, Fill;
    PrefixReads(base, f, s);
    SignReads(num, f, Prefix(base, f) + s);
  }

  lemma PrefixReads(base: nat, f: Flags, s: string)
    requires 2 <= base <= 16 && AfterPrefix(s, base) == s && s != "" && DigitValue(s[0]) < 16
    ensures var t := Prefix(base, f) + s;
            Reads(AfterPrefix(t, base), base, 0) == Reads(s, base, 0) && t != "" && DigitValue(t[0]) < 16
  {
    var t := Prefix(base, f) + s;
    if Prefix(base, f) == "" {
      assert t == s;
    } else if base == 8 {
      ReadsOne('0', s, 8, 0);
    } else {
      assert t[2..] == s;
    }
  }

  /** The number starts after spaces, one of which may stand for the sign. */
  lemma SignReads(num: int, f: Flags, t: string)
    requires t != "" && DigitValue(t[0]) < 16
    ensures var u := SkipSpaces(Sign(num, f) + t);
            AfterSign(u) == t && u != "" && (u[0] == '-' <==> f.sign && num < 0)
  {
    var s := Sign(num, f);
    assert s == "" ==> s + t == t;
    assert |s| == 1 ==> (s + t)[1..] == t;
  }
}
