// Decimal numbers out and in: the d and u cases of _doprnt and atoi, on 32-bit words.
module Decimal {
  const WORD: int := 0x1_0000_0000
  const HALF: int := 0x8000_0000
  const BILLION: int := 1000000000
  const MAXSTR: int := 80

  /** How often 2^32 has to be taken from x. */
  function Turns(x: int): int {
    (x + HALF) / WORD
  }

  /** The signed word with the low 32 bits of x. */
  function Wrap(x: int): (r: int)
    ensures -HALF <= r < HALF
    ensures -HALF <= x < HALF ==> r == x
  {
    x - Turns(x) * WORD
  }

  /** Numbers that differ by a multiple of 2^32 are the same word. */
  lemma SameWord(x: int, y: int, k: int)
    requires x - y == k * WORD
    ensures Wrap(x) == Wrap(y)
  {
    assert Turns(x) == Turns(y) + k;
  }

  lemma WrapNeg(x: int)
    ensures Wrap(-Wrap(x)) == Wrap(-x)
  {
    SameWord(-Wrap(x), -x, Turns(x));
  }

  lemma WrapDigit(x: int, d: int)
    ensures Wrap(Wrap(x) * 10 + d) == Wrap(x * 10 + d)
  {
    SameWord(Wrap(x) * 10 + d, x * 10 + d, -10 * Turns(x));
  }

  // ----- digits

  function Dig(d: int): char
    requires 0 <= d < 10
  {
    (d + 48) as char
  }

  predicate IsDigit(c: char) {
    '0' <= c <= '9'
  }

  ghost predicate AllDigits(s: string) {
    forall i :: 0 <= i < |s| ==> IsDigit(s[i])
  }

  function Value(s: string): int {
    if s == [] then 0 else 10 * Value(s[..|s| - 1]) + (s[|s| - 1] as int - 48)
  }

  /** The decimal digits of n. */
  /** One more digit makes those before it count ten times as much. */
  lemma ValueIs(s: string, c: char)
    ensures Value("") == 0 && Value(s + [c]) == 10 * Value(s) + (c as int - '0' as int)
  {
    assert (s + [c])[..|s|] == s;
  }

  function Digits(n: nat): (s: string)
    ensures s != []
  {
    if n < 10 then [Dig(n)] else Digits(n / 10) + [Dig(n % 10)]
  }

  lemma {:induction false} DigitsValue(n: nat)
    ensures AllDigits(Digits(n)) && Value(Digits(n)) == n
  {
    if n >= 10 {
      DigitsValue(n / 10);
      var s := Digits(n / 10) + [Dig(n % 10)];
      assert s[..|s| - 1] == Digits(n / 10);
    } else {
      assert [Dig(n)][..0] == [];
    }
  }

  /** No zero in front, except for 0 itself. */
  lemma {:induction false} DigitsLead(n: nat)
    ensures n > 0 ==> Digits(n)[0] != '0'
    ensures n == 0 ==> Digits(n) == "0"
  {
    if n < 10 {
    } else {
      DigitsLead(n / 10);
      assert Digits(n)[0] == Digits(n / 10)[0];
    }
  }

  /** 10 to the n */
  function Pow10(n: nat): (r: int)
    ensures r >= 1
  {
    if n == 0 then 1 else 10 * Pow10(n - 1)
  }

  lemma {:induction false} DigitsLength(n: nat, k: nat)
    requires k > 0
    ensures n < Pow10(k) ==> |Digits(n)| <= k
    ensures n >= Pow10(k - 1) ==> |Digits(n)| >= k
    decreases k
  {
    if k <= 1 {
    } else {
      DigitsLength(n / 10, k - 1);
    }
  }

  /** The i-th digit from the right. */
  function DigitAt(n: nat, i: nat): (d: int)
    ensures 0 <= d < 10
  {
    if i == 0 then n % 10 else DigitAt(n / 10, i - 1)
  }

  function Div10(n: nat, i: nat): nat {
    if i == 0 then n else Div10(n / 10, i - 1)
  }

  lemma {:induction false} DivStep(n: nat, i: nat)
    ensures Div10(n, i) % 10 == DigitAt(n, i) && Div10(n, i) / 10 == Div10(n, i + 1)
  {
    if i == 0 {
    } else {
      DivStep(n / 10, i - 1);
    }
  }

  lemma {:induction false} DigitsAre(n: nat, i: nat)
    ensures i < |Digits(n)| ==> Digits(n)[|Digits(n)| - 1 - i] == Dig(DigitAt(n, i))
    ensures i >= |Digits(n)| ==> DigitAt(n, i) == 0
  {
    if n < 10 {
      if i > 0 {
        ZeroDigits(i - 1);
      }
    } else if i > 0 {
      DigitsAre(n / 10, i - 1);
    }
  }

  lemma {:induction false} ZeroDigits(i: nat)
    ensures DigitAt(0, i) == 0
  {
    if i == 0 {
    } else {
      ZeroDigits(i - 1);
    }
  }

  lemma TenDigits(n: nat)
    requires n < HALF
    ensures |Digits(n)| <= 10
    ensures n >= BILLION ==> |Digits(n)| == 10
  {
    assert Pow10(9) == BILLION by { Billion(); }
    Billion();
    DigitsLength(n, 10);
  }

  lemma Billion()
    ensures Pow10(9) == BILLION && Pow10(10) == 10 * BILLION
  {
    assert Pow10(3) == 1000 && Pow10(6) == 1000000;
  }

  /** _prtl10 of a number that is not negative */
  method Prtl10(n: int) returns (str: string)
    requires 0 <= n < HALF
    ensures str == Digits(n)
  {
    TenDigits(n);
    ghost var s := Digits(n);
    var num: nat := n;
    var temp := new char[11](_ => '\0');
    var i := 1;
    while i <= 10
      invariant 1 <= i <= 11 && num == Div10(n, i - 1)
      invariant temp[0] == '\0' && forall j :: 1 <= j < i ==> temp[j] == Dig(DigitAt(n, j - 1))
    {
      DivStep(n, i - 1);
      temp[i] := Dig(num % 10);
      num := num / 10;
      i := i + 1;
    }
    forall j | 1 <= j <= 10
      ensures j <= |s| ==> temp[j] == s[|s| - j]
      ensures j > |s| ==> temp[j] == '0'
    {
      DigitsAre(n, j - 1);
    }
    DigitsLead(n);
    i := 10;
    while temp[i] == '0'
      invariant 0 <= i <= 10 && (n > 0 ==> i >= |s|) && (n == 0 ==> i >= 0)
      decreases i
    {
      i := i - 1;
    }
    if i == 0 {
      i := i + 1;
    }
    assert i == |s|;
    str := [];
    while i >= 1
      invariant 0 <= i <= |s| && str == s[..|s| - i]
    {
      assert s[..|s| - i + 1] == s[..|s| - i] + [s[|s| - i]];
      str := str + [temp[i]];
      i := i - 1;
    }
    assert s[..|s|] == s;
  }

  // ----- atoi

  /** The character at i; a string ends with NUL. */
  function At(s: string, i: nat): char {
    if i < |s| then s[i] else '\0'
  }

  predicate IsBlank(c: char) {
    c == ' ' || c == '\t'
  }

  function SkipBlanks(s: string): string {
    if s != [] && IsBlank(s[0]) then SkipBlanks(s[1..]) else s
  }

  function TakeDigits(s: string): string {
    if s != [] && IsDigit(s[0]) then [s[0]] + TakeDigits(s[1..]) else []
  }

  /** What atoi makes of a string: blanks, a sign, digits; the rest does not matter. */
  function AtoiOf(s: string): int {
    var t := SkipBlanks(s);
    if t != [] && t[0] == '-' then Wrap(-Value(TakeDigits(t[1..])))
    else if t != [] && t[0] == '+' then Wrap(Value(TakeDigits(t[1..])))
    else Wrap(Value(TakeDigits(t)))
  }

  lemma TakeStep(s: string, i: nat, d: string)
    requires i < |s| && IsDigit(s[i])
    ensures d + TakeDigits(s[i..]) == (d + [s[i]]) + TakeDigits(s[i + 1..])
    ensures Value(d + [s[i]]) == 10 * Value(d) + (s[i] as int - 48)
  {
    assert s[i..][0] == s[i] && s[i..][1..] == s[i + 1..];
    assert (d + [s[i]])[..|d|] == d;
  }

  lemma BlankStep(s: string, i: nat)
    ensures i < |s| && IsBlank(s[i]) ==> SkipBlanks(s[i..]) == SkipBlanks(s[i + 1..])
    ensures i <= |s| && !(i < |s| && IsBlank(s[i])) ==> SkipBlanks(s[i..]) == s[i..]
  {
    if i < |s| {
      assert s[i..][0] == s[i] && s[i..][1..] == s[i + 1..];
    }
  }

  lemma TakeEnd(s: string, i: nat)
    requires i <= |s| && !(i < |s| && IsDigit(s[i]))
    ensures TakeDigits(s[i..]) == []
  {
    assert i < |s| ==> s[i..][0] == s[i];
  }

  lemma DropOne(s: string, p: nat)
    requires p < |s|
    ensures s[p..][0] == s[p] && s[p..][1..] == s[p + 1..]
  {
  }

  lemma AtoiParts(s: string)
    ensures var t := SkipBlanks(s);
      AtoiOf(s) ==
        if t != [] && t[0] == '-' then Wrap(-Value(TakeDigits(t[1..])))
        else if t != [] && t[0] == '+' then Wrap(Value(TakeDigits(t[1..])))
        else Wrap(Value(TakeDigits(t)))
  {
    hide SkipBlanks, TakeDigits, Value, Wrap;
  }

  lemma NoDigits()
    ensures Wrap(Value([])) == 0 && Value([]) == 0
  {
  }

  method Atoi(s: string) returns (r: int)
    ensures r == AtoiOf(s)
  {
    hide AtoiOf, SkipBlanks, TakeDigits, Value, Wrap;
    var n, f, p := 0, 0, 0;
    assert s[0..] == s;
    while IsBlank(At(s, p))
      invariant 0 <= p <= |s| && SkipBlanks(s[p..]) == SkipBlanks(s)
      decreases |s| - p
    {
      BlankStep(s, p);
      p := p + 1;
    }
    BlankStep(s, p);
    AtoiParts(s);
    if p < |s| {
      DropOne(s, p);
    }
    if At(s, p) == '-' {
      f := f + 1;
      p := p + 1;
    } else if At(s, p) == '+' {
      p := p + 1;
    }
    ghost var d := "";
    ghost var digits := TakeDigits(s[p..]);
    NoDigits();
    while IsDigit(At(s, p))
      invariant 0 <= p <= |s| && d + TakeDigits(s[p..]) == digits
      invariant n == Wrap(Value(d))
      decreases |s| - p
    {
      TakeStep(s, p, d);
      WrapDigit(Value(d), s[p] as int - 48);
      d := d + [s[p]];
      n := Wrap(n * 10 + (s[p] as int - 48));
      p := p + 1;
    }
    TakeEnd(s, p);
    assert d == digits;
    WrapNeg(Value(d));
    r := if f != 0 then Wrap(-n) else n;
  }

  // ----- _doprnt

  function Repeat(c: char, n: int): (s: string)
    ensures |s| == if n > 0 then n else 0
    ensures forall i :: 0 <= i < |s| ==> s[i] == c
  {
    if n <= 0 then [] else Repeat(c, n - 1) + [c]
  }

  /** The number an unsigned format prints for a word. */
  function Unsigned(w: int): int {
    if w < 0 then w + WORD else w
  }

  /** The loop that makes a word positive, a thousand million at a time, and the digits with what
      was taken counted into the first one. */
  method Long(arg: int) returns (str: string)
    requires -HALF <= arg < HALF
    ensures str == Digits(Unsigned(arg))
  {
    var w := arg;
    var digit1 := 0;
    while w < 0
      invariant 0 <= digit1 <= 3 && -HALF <= w < HALF
      invariant w + digit1 * BILLION == arg || (w + digit1 * BILLION == arg + WORD && w >= HALF - BILLION)
      invariant arg < 0 <= w ==> w >= HALF - BILLION && digit1 > 0
      invariant arg >= 0 ==> digit1 == 0
      decreases if w < 0 then w + HALF + 1 else 0
    {
      SameWord(w - BILLION + WORD, w - BILLION, 1);
      w := Wrap(w - BILLION);
      digit1 := digit1 + 1;
    }
    str := Prtl10(w);
    FirstDigit(w, digit1);
    if digit1 > 0 {
      str := str[0 := (str[0] as int + digit1) as char];
    }
  }

  /** k times 10^m */
  function Times(k: nat, m: nat): nat {
    if m == 0 then k else 10 * Times(k, m - 1)
  }

  lemma {:induction false} AddTop(n: nat, k: nat, m: nat, i: nat)
    ensures i < m ==> DigitAt(n + Times(k, m), i) == DigitAt(n, i)
    ensures Div10(n + Times(k, m), m) == Div10(n, m) + k
    decreases m
  {
    if m == 0 {
    } else {
      assert (n + Times(k, m)) / 10 == n / 10 + Times(k, m - 1);
      AddTop(n / 10, k, m - 1, if i > 0 then i - 1 else 0);
    }
  }

  lemma {:induction false} DivIs(n: nat, q: nat, m: nat)
    requires Times(q, m) <= n < Times(q + 1, m)
    ensures Div10(n, m) == q
    decreases m
  {
    if m == 0 {
    } else {
      DivIs(n / 10, q, m - 1);
    }
  }

  lemma TimesBillion(k: nat)
    ensures Times(k, 9) == k * BILLION
  {
    assert Times(k, 1) == 10 * k && Times(k, 2) == 100 * k && Times(k, 3) == 1000 * k;
    assert Times(k, 4) == 10000 * k && Times(k, 5) == 100000 * k && Times(k, 6) == 1000000 * k;
    assert Times(k, 7) == 10000000 * k && Times(k, 8) == 100000000 * k;
  }

  lemma LongNumber(w: int, k: int)
    requires HALF - BILLION <= w < HALF && 0 <= k <= 3
    ensures |Digits(w + k * BILLION)| == 10
  {
    hide *;
    Constants();
    Billion();
    DigitsLength(w + k * BILLION, 10);
  }

  lemma Constants()
    ensures HALF == 2147483648 && BILLION == 1000000000
  {
  }

  lemma DigitFrom(n: nat, j: nat)
    requires |Digits(n)| == 10 && j < 10
    ensures Digits(n)[j] == Dig(DigitAt(n, 9 - j))
  {
    hide *;
    DigitsAre(n, 9 - j);
  }

  lemma LowerDigit(w: int, k: nat, j: nat)
    requires HALF - BILLION <= w < HALF && k <= 3 && 0 < j < 10
    ensures |Digits(w)| == 10 && |Digits(w + k * BILLION)| == 10 && Digits(w)[j] == Digits(w + k * BILLION)[j]
  {
    hide *;
    Constants();
    LongNumber(w, 0);
    LongNumber(w, k);
    DigitFrom(w, j);
    DigitFrom(w + k * BILLION, j);
    TimesBillion(k);
    AddTop(w, k, 9, 9 - j);
  }

  /** The digit in front counts the thousands of millions. */
  lemma TopDigit(w: int, k: nat)
    requires HALF - BILLION <= w < HALF && k <= 3
    ensures |Digits(w)| == 10 && |Digits(w + k * BILLION)| == 10
    ensures 48 <= Digits(w)[0] as int && Digits(w)[0] as int + k < 58
    ensures Digits(w + k * BILLION)[0] as int == Digits(w)[0] as int + k
  {
    var q: nat := if w < 2 * BILLION then 1 else 2;
    hide *;
    Constants();
    LongNumber(w, 0);
    LongNumber(w, k);
    DigitFrom(w, 0);
    DigitFrom(w + k * BILLION, 0);
    TimesBillion(q);
    TimesBillion(q + 1);
    TimesBillion(k);
    DivIs(w, q, 9);
    AddTop(w, k, 9, 0);
    DivStep(w, 9);
    DivStep(w + k * BILLION, 9);
    DigCode(q);
    DigCode(q + k);
  }

  lemma DigCode(d: int)
    requires 0 <= d < 10
    ensures Dig(d) as int == 48 + d
  {
  }

  lemma FirstDigit(w: int, k: int)
    requires 0 <= w < HALF && 0 <= k <= 3 && (k > 0 ==> w >= HALF - BILLION)
    ensures k > 0 ==> 48 <= Digits(w)[0] as int && Digits(w)[0] as int + k < 58
    ensures k > 0 ==> Digits(w)[0 := (Digits(w)[0] as int + k) as char] == Digits(w + k * BILLION)
  {
    if k > 0 {
      TopDigit(w, k);
      var s, t := Digits(w), Digits(w + k * BILLION);
      forall j | 0 < j < 10
        ensures s[j] == t[j]
      {
        LowerDigit(w, k, j);
      }
      hide Digits;
      assert s[0 := (s[0] as int + k) as char] == t;
    }
  }

  // ----- the field

  /** What %d prints: a sign, the digits of the absolute value, and what fills the field. */
  function Printed(arg: int, width: int, leftjust: bool, fill: char): string {
    var sign := if arg < 0 then "-" else "";
    var digits := Digits(if arg < 0 then -arg else arg);
    var w := if 0 <= width <= MAXSTR then width else 0;
    var pad := Repeat(fill, w - |digits| - |sign|);
    if leftjust then sign + digits + pad
    else if fill == '0' then sign + pad + digits
    else pad + sign + digits
  }

  /** The d case of _doprnt; fill is blank or zero. */
  method FormatD(arg: int, width: int, leftjust: bool, fill: char) returns (out: string)
    requires -HALF <= arg < HALF && (fill == ' ' || fill == '0')
    ensures out == Printed(arg, width, leftjust, fill)
  {
    hide Printed, Digits, Repeat, Wrap, Unsigned;
    Absolute(arg);
    var sign, w := false, arg;
    if w < 0 {
      sign := true;
      w := Wrap(-w);
    }
    var str := Long(w);
    var fmin := width;
    if fmin > MAXSTR || fmin < 0 {
      fmin := 0;
    }
    var length, leading := |str|, 0;
    if fmin != 0 {
      leading := fmin - length;
      if sign {
        leading := leading - 1;
      }
    }
    Assemble(arg, width, leftjust, fill, str, leading);
    out := [];
    if sign && fill == '0' {
      out := out + "-";
    }
    if !leftjust {
      out := Put(out, fill, leading);
    }
    if sign && fill == ' ' {
      out := out + "-";
    }
    out := out + str;
    if leftjust {
      out := Put(out, fill, leading);
    }
  }

  lemma Absolute(arg: int)
    requires -HALF <= arg < HALF
    ensures arg < 0 ==> Unsigned(Wrap(-arg)) == -arg
    ensures arg >= 0 ==> Unsigned(arg) == arg
  {
    if arg == -HALF {
      SameWord(HALF, -HALF, 1);
    }
  }

  /** How many fill characters a field has. */
  function Padding(arg: int, width: int): int {
    (if 0 <= width <= MAXSTR then width else 0) - |Digits(if arg < 0 then -arg else arg)| - (if arg < 0 then 1 else 0)
  }

  lemma PaddingIs(arg: int, width: int)
    ensures Padding(arg, width) > 0 <==> |Own(arg)| < width <= 80
  {
    hide Digits;
  }

  lemma PrintedIs(arg: int, width: int, leftjust: bool, fill: char)
    ensures Printed(arg, width, leftjust, fill) ==
      var sign := if arg < 0 then "-" else "";
      var digits := Digits(if arg < 0 then -arg else arg);
      var pad := Repeat(fill, Padding(arg, width));
      if leftjust then sign + digits + pad else if fill == '0' then sign + pad + digits else pad + sign + digits
  {
    hide Digits, Repeat;
  }

  lemma SamePad(arg: int, width: int, digits: string, leading: int)
    requires digits == Digits(if arg < 0 then -arg else arg)
    requires leading == if 0 < width <= MAXSTR then width - |digits| - (if arg < 0 then 1 else 0) else 0
    ensures Padding(arg, width) == leading || (Padding(arg, width) <= 0 && leading <= 0)
  {
    hide Digits;
  }

  lemma RepeatNone(c: char, n: int)
    ensures n <= 0 ==> forall k :: k <= 0 ==> Repeat(c, k) == Repeat(c, n)
  {
  }

  lemma Around(a: string, e: string)
    requires e == ""
    ensures a + e == a && e + a == a
  {
  }

  lemma Assemble(arg: int, width: int, leftjust: bool, fill: char, digits: string, leading: int)
    requires fill == ' ' || fill == '0'
    requires digits == Digits(if arg < 0 then -arg else arg)
    requires leading == if 0 < width <= MAXSTR then width - |digits| - (if arg < 0 then 1 else 0) else 0
    ensures Printed(arg, width, leftjust, fill) ==
      (if arg < 0 && fill == '0' then "-" else "") + (if leftjust then "" else Repeat(fill, leading))
      + (if arg < 0 && fill == ' ' then "-" else "") + digits + (if leftjust then Repeat(fill, leading) else "")
  {
    hide *;
    PrintedIs(arg, width, leftjust, fill);
    SamePad(arg, width, digits, leading);
    RepeatNone(fill, leading);
    var pad := Repeat(fill, leading);
    var sign := if arg < 0 then "-" else "";
    Around(sign, "");
    Around(sign + digits + pad, "");
    Around(sign + pad + digits, "");
    Around(pad + sign + digits, "");
    Around(sign + pad, "");
    Around(pad, "");
  }

  /** A loop that writes the fill character n times. */
  method Put(before: string, c: char, n: int) returns (out: string)
    ensures out == before + Repeat(c, n)
  {
    out := before;
    var i := 0;
    while i < n
      invariant 0 <= i && (i <= n || i == 0) && out == before + Repeat(c, i)
    {
      out := out + [c];
      i := i + 1;
    }
  }

  // ----- what comes out and what comes back

  /** The number without a field. */
  function Own(arg: int): string {
    (if arg < 0 then "-" else "") + Digits(if arg < 0 then -arg else arg)
  }

  /** The field is as wide as asked for, up to 80, or as wide as the number needs. */
  lemma PrintedLength(arg: int, width: int, leftjust: bool, fill: char)
    ensures var n := |Own(arg)|;
      |Printed(arg, width, leftjust, fill)| == if n < width <= 80 then width else n
  {
    hide Digits;
  }

  /** Where the number stands in its field, and what else does. */
  lemma FieldShape(arg: int, width: int, leftjust: bool, fill: char)
    requires leftjust || fill != '0'
    ensures |Printed(arg, width, leftjust, fill)| >= |Own(arg)|
    ensures var out := Printed(arg, width, leftjust, fill); var n := |Own(arg)|;
      && (leftjust ==> out[..n] == Own(arg) && forall i :: n <= i < |out| ==> out[i] == fill)
      && (!leftjust ==> out[|out| - n..] == Own(arg) && forall i :: 0 <= i < |out| - n ==> out[i] == fill)
  {
    hide *;
    PrintedIs(arg, width, leftjust, fill);
    OwnIs(arg);
    var sign := if arg < 0 then "-" else "";
    var digits := Digits(if arg < 0 then -arg else arg);
    var pad := Repeat(fill, Padding(arg, width));
    Ends(sign + digits, pad);
    Ends(pad, sign + digits);
    assert pad + sign + digits == pad + (sign + digits);
  }

  /** A field filled up with zeros has its sign in front of them. */
  lemma ZeroShape(arg: int, width: int)
    ensures var out := Printed(arg, width, false, '0'); var digits := Digits(if arg < 0 then -arg else arg);
      && |out| >= |Own(arg)| == |digits| + (if arg < 0 then 1 else 0)
      && out[|out| - |digits|..] == digits && (arg < 0 ==> out[0] == '-')
      && forall i :: (if arg < 0 then 1 else 0) <= i < |out| - |digits| ==> out[i] == '0'
  {
    hide *;
    PrintedIs(arg, width, false, '0');
    OwnIs(arg);
    var sign := if arg < 0 then "-" else "";
    var digits := Digits(if arg < 0 then -arg else arg);
    var pad := Repeat('0', Padding(arg, width));
    Ends(sign + pad, digits);
    Ends(sign, pad);
  }

  lemma OwnIs(arg: int)
    ensures Own(arg) == (if arg < 0 then "-" else "") + Digits(if arg < 0 then -arg else arg)
  {
    hide Digits;
  }

  lemma Ends(a: string, b: string)
    ensures (a + b)[..|a|] == a && (a + b)[|a|..] == b
    ensures forall i :: 0 <= i < |a| ==> (a + b)[i] == a[i]
    ensures forall i :: |a| <= i < |a + b| ==> (a + b)[i] == b[i - |a|]
  {
  }

  lemma {:induction false} TakeAll(d: string, tail: string)
    requires AllDigits(d) && (tail != [] ==> !IsDigit(tail[0]))
    ensures TakeDigits(d + tail) == d
    decreases |d|
  {
    if d == [] {
      assert d + tail == tail;
    } else {
      assert (d + tail)[0] == d[0] && (d + tail)[1..] == d[1..] + tail;
      assert AllDigits(d[1..]);
      TakeAll(d[1..], tail);
    }
  }

  lemma {:induction false} SkipAll(n: int, t: string)
    ensures SkipBlanks(Repeat(' ', n) + t) == SkipBlanks(t)
    decreases n
  {
    if n > 0 {
      RepeatFront(' ', n);
      assert (Repeat(' ', n) + t)[1..] == Repeat(' ', n - 1) + t;
      SkipAll(n - 1, t);
    } else {
      assert Repeat(' ', n) + t == t;
    }
  }

  lemma {:induction false} RepeatFront(c: char, n: int)
    requires n > 0
    ensures Repeat(c, n) == [c] + Repeat(c, n - 1)
    decreases n
  {
    if n <= 1 {
    } else {
      RepeatFront(c, n - 1);
    }
  }

  lemma {:induction false} LeadingZeros(n: int, d: string)
    ensures Value(Repeat('0', n) + d) == Value(d)
    decreases |d| + if n > 0 then n else 0
  {
    var s := Repeat('0', n) + d;
    if d == [] {
      assert s == Repeat('0', n);
      if n > 0 {
        assert s[..|s| - 1] == Repeat('0', n - 1);
        LeadingZeros(n - 1, d);
        assert Repeat('0', n - 1) + d == Repeat('0', n - 1);
      }
    } else {
      assert s[..|s| - 1] == Repeat('0', n) + d[..|d| - 1];
      LeadingZeros(n, d[..|d| - 1]);
    }
  }

  /** 10^n times x, the digits of x with n zeros behind. */
  function Zeros(x: int, n: int): int {
    if n <= 0 then x else 10 * Zeros(x, n - 1)
  }

  lemma {:induction false} TrailingZeros(d: string, n: int)
    ensures Value(d + Repeat('0', n)) == Zeros(Value(d), n)
    decreases n
  {
    if n <= 0 {
      assert d + Repeat('0', n) == d;
    } else {
      var s := d + Repeat('0', n);
      assert s[..|s| - 1] == d + Repeat('0', n - 1);
      TrailingZeros(d, n - 1);
    }
  }

  lemma Signed(minus: bool, d: string, tail: string)
    requires d != [] && AllDigits(d)
    ensures var t := (if minus then "-" else "") + d + tail;
      && t != [] && SkipBlanks(t) == t && t[0] != '+' && (t[0] == '-' <==> minus)
      && (if minus then t[1..] else t) == d + tail
  {
    hide Value, TakeDigits;
    var t := (if minus then "-" else "") + d + tail;
    assert IsDigit(d[0]);
    assert t[0] == if minus then '-' else d[0];
    assert minus ==> t[1..] == d + tail;
  }

  lemma AtoiOn(s: string, t: string)
    requires SkipBlanks(s) == t && t != [] && t[0] != '+'
    ensures AtoiOf(s) == if t[0] == '-' then Wrap(-Value(TakeDigits(t[1..]))) else Wrap(Value(TakeDigits(t)))
  {
    hide *;
    AtoiParts(s);
  }

  /** atoi of blanks, an optional minus, digits and something else. */
  lemma AtoiField(blanks: int, minus: bool, d: string, tail: string)
    requires d != [] && AllDigits(d) && (tail != [] ==> !IsDigit(tail[0]))
    ensures AtoiOf(Repeat(' ', blanks) + ((if minus then "-" else "") + d + tail)) == Wrap(if minus then -Value(d) else Value(d))
  {
    hide *;
    var t := (if minus then "-" else "") + d + tail;
    SkipAll(blanks, t);
    TakeAll(d, tail);
    Signed(minus, d, tail);
    AtoiOn(Repeat(' ', blanks) + t, t);
  }

  /** Blanks and tabs in front do not matter. */
  lemma {:induction false} BlanksSkipped(b: string, s: string)
    requires forall i :: 0 <= i < |b| ==> b[i] == ' ' || b[i] == '\t'
    ensures SkipBlanks(b + s) == SkipBlanks(s) && AtoiOf(b + s) == AtoiOf(s)
    decreases |b|
  {
    hide TakeDigits, Value, Wrap;
    if b == [] {
      assert b + s == s;
    } else {
      assert (b + s)[0] == b[0] && (b + s)[1..] == b[1..] + s;
      BlanksSkipped(b[1..], s);
    }
  }

  /** Blanks, a sign or none, digits, and something that is no digit. */
  lemma AtoiReads(b: string, d: string, tail: string)
    requires forall i :: 0 <= i < |b| ==> b[i] == ' ' || b[i] == '\t'
    requires forall i :: 0 <= i < |d| ==> '0' <= d[i] <= '9'
    requires tail == [] || tail[0] < '0' || '9' < tail[0]
    ensures AtoiOf(b + ("+" + d + tail)) == Wrap(Value(d))
    ensures AtoiOf(b + ("-" + d + tail)) == Wrap(-Value(d))
    ensures d != [] ==> AtoiOf(b + (d + tail)) == Wrap(Value(d))
  {
    hide *;
    BlanksSkipped(b, "+" + d + tail);
    BlanksSkipped(b, "-" + d + tail);
    BlanksSkipped(b, d + tail);
    LiteralDigits(d, tail);
    TakeAll(d, tail);
    AfterSign('+', d, tail);
    AfterSign('-', d, tail);
    AtoiParts("+" + d + tail);
    AtoiParts("-" + d + tail);
    if d != [] {
      assert (d + tail)[0] == d[0];
      NoBlank(d + tail);
      AtoiParts(d + tail);
    }
  }

  lemma LiteralDigits(d: string, tail: string)
    requires forall i :: 0 <= i < |d| ==> '0' <= d[i] <= '9'
    requires tail == [] || tail[0] < '0' || '9' < tail[0]
    ensures AllDigits(d) && (tail != [] ==> !IsDigit(tail[0]))
  {
  }

  lemma NoBlank(t: string)
    requires t != [] && t[0] != ' ' && t[0] != '\t'
    ensures SkipBlanks(t) == t
  {
  }

  lemma AfterSign(c: char, d: string, tail: string)
    requires c == '+' || c == '-'
    ensures var t := [c] + d + tail; t != [] && t[0] == c && t[1..] == d + tail && SkipBlanks(t) == t
  {
    NoBlank([c] + d + tail);
  }

  /** A string that goes on with anything else is 0. */
  lemma AtoiNothing(b: string, c: char, rest: string)
    requires forall i :: 0 <= i < |b| ==> b[i] == ' ' || b[i] == '\t'
    requires c != ' ' && c != '\t' && c != '+' && c != '-' && !('0' <= c <= '9')
    ensures AtoiOf(b + ([c] + rest)) == 0 && AtoiOf(b) == 0
  {
    BlanksSkipped(b, [c] + rest);
    BlanksSkipped(b, "");
    assert b + "" == b && ([c] + rest)[0] == c;
    NoDigits();
  }

  /** A word has 32 bits, with a sign or without. */
  lemma WrapIs(x: int) returns (k: int)
    ensures -0x8000_0000 <= Wrap(x) < 0x8000_0000 && Wrap(x) == x - k * 0x1_0000_0000
    ensures 0 <= Unsigned(Wrap(x)) < 0x1_0000_0000
    ensures Unsigned(Wrap(x)) == Wrap(x) || Unsigned(Wrap(x)) == Wrap(x) + 0x1_0000_0000
  {
    k := Turns(x);
  }

  // ----- divisibility by powers of two

  /** 2^a divides x. */
  predicate Even(x: int, a: nat)
    decreases a
  {
    a == 0 || (x % 2 == 0 && Even(x / 2, a - 1))
  }

  lemma {:induction false} EvenAdd(x: int, y: int, a: nat)
    requires Even(x, a) && Even(y, a)
    ensures Even(x + y, a) && Even(x - y, a)
    decreases a
  {
    if a == 0 {
    } else {
      assert (x + y) / 2 == x / 2 + y / 2 && (x - y) / 2 == x / 2 - y / 2;
      EvenAdd(x / 2, y / 2, a - 1);
    }
  }

  lemma EvenTen(x: int, a: nat)
    requires Even(x, a)
    ensures Even(10 * x, a + 1) && Even(10 * x, a)
  {
    EvenAdd(x, x, a);
    EvenAdd(x + x, x + x, a);
    EvenAdd(4 * x, x, a);
    assert 10 * x / 2 == 5 * x;
    EvenAdd(5 * x, 5 * x, a);
  }

  lemma {:induction false} EvenZeros(x: int, a: nat, n: int)
    requires Even(x, a)
    ensures Even(Zeros(x, n), a) && (n > 0 ==> Even(Zeros(x, n), a + 1))
    decreases n
  {
    if n <= 0 {
    } else {
      EvenZeros(x, a, n - 1);
      EvenTen(Zeros(x, n - 1), a);
    }
  }

  function Double(x: int, n: nat): int {
    if n == 0 then x else 2 * Double(x, n - 1)
  }

  lemma {:induction false} EvenDouble(x: int, n: nat, a: nat)
    requires a <= n
    ensures Even(Double(x, n), a)
    decreases n
  {
    if a == 0 {
    } else {
      EvenDouble(x, n - 1, a - 1);
    }
  }

  lemma {:induction false} DoubleAdd(x: int, a: nat, b: nat)
    ensures Double(x, a + b) == Double(Double(x, a), b)
    decreases b
  {
    if b == 0 {
    } else {
      DoubleAdd(x, a, b - 1);
    }
  }

  lemma DoubleEight(x: int)
    ensures Double(x, 8) == 256 * x
  {
    assert Double(x, 1) == 2 * x && Double(x, 2) == 4 * x && Double(x, 3) == 8 * x && Double(x, 4) == 16 * x;
    assert Double(x, 5) == 32 * x && Double(x, 6) == 64 * x && Double(x, 7) == 128 * x;
  }

  lemma DoubleWord(x: int)
    ensures Double(x, 32) == x * WORD
  {
    DoubleAdd(x, 8, 8);
    DoubleAdd(x, 16, 8);
    DoubleAdd(x, 24, 8);
    DoubleEight(x);
    DoubleEight(256 * x);
    DoubleEight(65536 * x);
    DoubleEight(16777216 * x);
  }

  lemma {:induction false} EvenSmall(x: int, n: nat)
    requires 0 < x < Double(1, n)
    ensures !Even(x, n)
    decreases n
  {
    if n == 0 || x % 2 != 0 {
    } else {
      EvenSmall(x / 2, n - 1);
    }
  }

  lemma {:induction false} Crossing(x: int, n: nat) returns (a: nat)
    requires !Even(x, n)
    ensures a < n && Even(x, a) && !Even(x, a + 1)
    decreases n
  {
    if Even(x, n - 1) {
      a := n - 1;
    } else {
      a := Crossing(x, n - 1);
    }
  }

  /** Zeros behind the digits never give the same word again. */
  lemma ZerosChange(m: int, n: int, minus: bool)
    requires 0 < m <= HALF && n > 0
    ensures Wrap(if minus then -Zeros(m, n) else Zeros(m, n)) != if minus then -m else m
  {
    DoubleWord(1);
    EvenSmall(m, 32);
    var a := Crossing(m, 32);
    var z := Zeros(m, n);
    EvenZeros(m, a, n);
    var y := if minus then -z else z;
    var k := Turns(y);
    DoubleWord(k);
    EvenDouble(k, 32, a + 1);
    if Wrap(y) == (if minus then -m else m) {
      if minus {
        EvenAdd(z, k * WORD, a + 1);
      } else {
        EvenAdd(z, k * WORD, a + 1);
      }
      assert false;
    }
  }

  // ----- the round trip

  lemma ZeroDigitsAlso(n: int, d: string)
    requires AllDigits(d) && d != []
    ensures AllDigits(Repeat('0', n) + d) && AllDigits(d + Repeat('0', n))
  {
    hide Repeat;
  }

  lemma NoRepeat()
    ensures Repeat(' ', 0) == ""
  {
  }

  lemma BlankPad(n: int)
    ensures Repeat(' ', n) != [] ==> !IsDigit(Repeat(' ', n)[0])
  {
    hide Repeat;
  }

  lemma ReadLeft(arg: int, width: int, fill: char)
    requires -HALF <= arg < HALF && (fill == ' ' || fill == '0')
    ensures var m := if arg < 0 then -arg else arg;
      var v := if fill == '0' then Zeros(m, Padding(arg, width)) else m;
      AtoiOf(Printed(arg, width, true, fill)) == Wrap(if arg < 0 then -v else v)
  {
    hide *;
    var m := if arg < 0 then -arg else arg;
    var d := Digits(m);
    DigitsValue(m);
    PrintedIs(arg, width, true, fill);
    var n := Padding(arg, width);
    NoRepeat();
    if fill == ' ' {
      BlankPad(n);
      assert (if arg < 0 then "-" else "") + d + Repeat(' ', n) == "" + ((if arg < 0 then "-" else "") + d + Repeat(' ', n));
      AtoiField(0, arg < 0, d, Repeat(' ', n));
    } else {
      TrailingZeros(d, n);
      ZeroDigitsAlso(n, d);
      assert (if arg < 0 then "-" else "") + d + Repeat('0', n) == "" + ((if arg < 0 then "-" else "") + (d + Repeat('0', n)) + "");
      AtoiField(0, arg < 0, d + Repeat('0', n), "");
    }
  }

  lemma ReadRight(arg: int, width: int, fill: char)
    requires -HALF <= arg < HALF && (fill == ' ' || fill == '0')
    ensures AtoiOf(Printed(arg, width, false, fill)) == arg
  {
    hide *;
    var m := if arg < 0 then -arg else arg;
    var d := Digits(m);
    DigitsValue(m);
    PrintedIs(arg, width, false, fill);
    Small(arg);
    var n := Padding(arg, width);
    if fill == ' ' {
      assert Repeat(' ', n) + (if arg < 0 then "-" else "") + d == Repeat(' ', n) + ((if arg < 0 then "-" else "") + d + "");
      AtoiField(n, arg < 0, d, "");
    } else {
      LeadingZeros(n, d);
      ZeroDigitsAlso(n, d);
      NoRepeat();
      assert (if arg < 0 then "-" else "") + Repeat('0', n) + d == "" + ((if arg < 0 then "-" else "") + (Repeat('0', n) + d) + "");
      AtoiField(0, arg < 0, Repeat('0', n) + d, "");
    }
  }

  /** atoi reads back every 32-bit number that %d prints, whatever the field, unless zeros were
      written behind its digits; then it never does, except for 0. */
  lemma RoundTrip(arg: int, width: int, leftjust: bool, fill: char)
    requires -0x8000_0000 <= arg < 0x8000_0000 && (fill == ' ' || fill == '0')
    ensures AtoiOf(Printed(arg, width, leftjust, fill)) == arg
      <==> !(leftjust && fill == '0' && |Own(arg)| < width <= 80 && arg != 0)
  {
    PaddingIs(arg, width);
    hide AtoiOf, Printed, Padding, Wrap;
    if !leftjust {
      ReadRight(arg, width, fill);
    } else {
      var m := if arg < 0 then -arg else arg;
      var n := Padding(arg, width);
      ReadLeft(arg, width, fill);
      ZerosZero(n);
      Small(arg);
      if fill == '0' && n > 0 && arg != 0 {
        ZerosChange(m, n, arg < 0);
      }
    }
  }

  lemma {:induction false} ZerosZero(n: int)
    ensures Zeros(0, n) == 0
    decreases n
  {
    if n <= 0 {
    } else {
      ZerosZero(n - 1);
    }
  }

  lemma Small(arg: int)
    requires -HALF <= arg < HALF
    ensures Wrap(arg) == arg
  {
  }
}
