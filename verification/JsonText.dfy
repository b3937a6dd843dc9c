/** The pieces of the canonical JSON text shared by the Go and the TypeScript serializer: numbers,
    string literals, and a reader for them following section 6 and section 7 of RFC 8259. */
module JsonText {
  import opened Base

  /** A reader's result: the value and the text after it. */
  datatype Read<+T> = Got(value: T, rest: string) | Bad {
    predicate IsFailure() { Bad? }
    function PropagateFailure<U>(): Read<U> requires Bad? { Bad }
    function Extract(): (T, string) requires Got? { (value, rest) }
  }

  function Expect(s: string, lit: string): Read<()>
  {
    if lit <= s then Got((), s[|lit|..]) else Bad
  }

  lemma {:induction false} ExpectBack(lit: string, k: string)
    ensures Expect(lit + k, lit) == Got((), k)
  {
  }

  // ------------------------------------------------------------ numbers

  function DigitChar(d: nat): char
    requires d < 10
  {
    "0123456789"[d]
  }

  predicate IsDigit(c: char) { '0' <= c <= '9' }

  function DigitsText(n: nat): (t: string)
    ensures t != "" && IsDigit(t[0])
  {
    if n < 10 then [DigitChar(n)] else DigitsText(n / 10) + [DigitChar(n % 10)]
  }

  function Sign(v: int): string { if v < 0 then "-" else "" }

  function Abs(v: int): nat { if v < 0 then -v else v }

  /** strconv.Itoa, and JSON.stringify of an integer. */
  function Itoa(n: int): string { Sign(n) + DigitsText(Abs(n)) }

  /** Hundredths without trailing zeros. */
  function Fraction(h: nat): string
    requires h < 100
  {
    if h == 0 then "" else if h % 10 == 0 then ['.', DigitChar(h / 10)] else ['.', DigitChar(h / 10), DigitChar(h % 10)]
  }

  /** The shortest decimal form of a number given in hundredths. */
  function NumberText(h: int): string { Sign(h) + (DigitsText(Abs(h) / 100) + Fraction(Abs(h) % 100)) }

  lemma {:induction false} IntegersAreNumbers(n: int)
    ensures NumberText(100 * n) == Itoa(n)
  {
    assert Abs(100 * n) == 100 * Abs(n) && 100 * Abs(n) / 100 == Abs(n);
    assert DigitsText(Abs(n)) + "" == DigitsText(Abs(n));
  }

  function ReadDigits(s: string, acc: nat): (nat, string)
    decreases |s|
  {
    if s != "" && IsDigit(s[0]) then ReadDigits(s[1..], 10 * acc + (s[0] as int - '0' as int)) else (acc, s)
  }

  function ReadFraction(s: string): (nat, string)
  {
    if |s| < 2 || s[0] != '.' || !IsDigit(s[1]) then (0, s)
    else
      var tens := 10 * (s[1] as int - '0' as int);
      if |s| > 2 && IsDigit(s[2]) then (tens + (s[2] as int - '0' as int), s[3..]) else (tens, s[2..])
  }

  /** A number in hundredths. */
  function ReadNumber(s: string): Read<int>
  {
    var negative := s != "" && s[0] == '-';
    var s1 := if negative then s[1..] else s;
    if s1 == "" || !IsDigit(s1[0]) then Bad
    else
      var (whole, s2) := ReadDigits(s1, 0);
      var (part, s3) := ReadFraction(s2);
      Got(if negative then -(100 * whole + part) else 100 * whole + part, s3)
  }

  // ------------------------------------------------------------ no shorter number

  lemma {:induction false} DigitsGrow(acc: nat, d: nat)
    requires d < 10
    ensures |DigitsText(10 * acc + d)| <= |DigitsText(acc)| + 1
  {
    if 10 * acc + d >= 10 {
      assert (10 * acc + d) / 10 == acc;
    }
  }

  /** Reading digits takes at least as many characters as writing the number grows by. */
  lemma {:induction false} DigitsTake(s: string, acc: nat)
    ensures var (n, rest) := ReadDigits(s, acc);
      |rest| <= |s| && |DigitsText(n)| + |rest| <= |DigitsText(acc)| + |s|
    decreases |s|
  {
    if s != "" && IsDigit(s[0]) {
      var d := s[0] as int - '0' as int;
      DigitsGrow(acc, d);
      DigitsTake(s[1..], 10 * acc + d);
    }
  }

  lemma {:induction false} FractionTakes(s: string)
    ensures var (part, rest) := ReadFraction(s); part < 100 && |rest| <= |s| && |Fraction(part)| + |rest| <= |s|
  {
  }

  lemma {:induction false} HundredthsSplit(whole: nat, part: nat)
    requires part < 100
    ensures (100 * whole + part) / 100 == whole && (100 * whole + part) % 100 == part
  {
  }

  /** No shorter text, with or without zeros it could spare, is read as the same number. */
  lemma {:induction false} NumberIsShortest(s: string, h: int)
    requires ReadNumber(s) == Got(h, "")
    ensures |NumberText(h)| <= |s|
  {
    hide Fraction, ReadFraction, DigitsText;
    var negative := s != "" && s[0] == '-';
    var s1 := if negative then s[1..] else s;
    var (whole, s2) := ReadDigits(s1, 0);
    var (part, s3) := ReadFraction(s2);
    var d := s1[0] as int - '0' as int;
    DigitsTake(s1[1..], d);
    OneDigit(d);
    FractionTakes(s2);
    HundredthsSplit(whole, part);
    assert Abs(h) == 100 * whole + part;
  }

  lemma {:induction false} OneDigit(d: nat)
    requires d < 10
    ensures |DigitsText(d)| == 1
  {
  }

  function ReadInt(s: string): Read<int>
  {
    var (h, k) :- ReadNumber(s);
    if h % 100 == 0 then Got(h / 100, k) else Bad
  }

  lemma {:induction false} DigitsBack(n: nat, k: string)
    ensures ReadDigits(DigitsText(n) + k, 0) == ReadDigits(k, n)
  {
    var last := [DigitChar(n % 10)];
    assert (last + k)[1..] == k;
    if n >= 10 {
      DigitsBack(n / 10, last + k);
      assert DigitsText(n / 10) + last + k == DigitsText(n / 10) + (last + k);
    }
  }

  /** What may follow a number: neither a digit nor a decimal point. */
  predicate EndsNumber(k: string) { k == "" || !(IsDigit(k[0]) || k[0] == '.') }

  lemma {:induction false} DigitCharBack(d: nat)
    requires d < 10
    ensures IsDigit(DigitChar(d)) && DigitChar(d) as int - '0' as int == d
  {
  }

  lemma {:induction false} OneDecimal(d: nat, k: string)
    requires d < 10 && EndsNumber(k)
    ensures ReadFraction(['.', DigitChar(d)] + k) == (10 * d, k)
  {
    DigitCharBack(d);
    hide DigitChar;
    var s := ['.', DigitChar(d)] + k;
    assert s[0] == '.' && s[1] == DigitChar(d) && s[2..] == k;
  }

  lemma {:induction false} TwoDecimals(d: nat, e: nat, k: string)
    requires d < 10 && e < 10
    ensures ReadFraction(['.', DigitChar(d), DigitChar(e)] + k) == (10 * d + e, k)
  {
    DigitCharBack(d);
    DigitCharBack(e);
    hide DigitChar;
    var s := ['.', DigitChar(d), DigitChar(e)] + k;
    assert s[0] == '.' && s[1] == DigitChar(d) && s[2] == DigitChar(e) && s[3..] == k;
  }

  lemma {:induction false} FractionBack(h: nat, k: string)
    requires h < 100 && EndsNumber(k)
    ensures ReadFraction(Fraction(h) + k) == (h, k)
  {
    assert h == 10 * (h / 10) + h % 10;
    if h == 0 {
      assert "" + k == k;
    } else {
      OneDecimal(h / 10, k);
      TwoDecimals(h / 10, h % 10, k);
    }
  }

  lemma {:induction false} DigitsStop(n: nat, h: nat, k: string)
    requires h < 100 && EndsNumber(k)
    ensures ReadDigits(Fraction(h) + k, n) == (n, Fraction(h) + k)
  {
    assert h == 0 ==> Fraction(h) + k == k;
    assert h > 0 ==> (Fraction(h) + k)[0] == '.';
  }

  lemma {:induction false} NumberBack(h: int, k: string)
    requires EndsNumber(k)
    ensures ReadNumber(NumberText(h) + k) == Got(h, k)
  {
    hide Fraction, DigitsText, ReadDigits, ReadFraction;
    var whole, frac := DigitsText(Abs(h) / 100), Fraction(Abs(h) % 100);
    var s1 := whole + (frac + k);
    assert NumberText(h) + k == Sign(h) + s1;
    assert s1[0] == whole[0];
    assert h < 0 ==> ("-" + s1)[1..] == s1;
    assert h >= 0 ==> "" + s1 == s1;
    DigitsBack(Abs(h) / 100, frac + k);
    DigitsStop(Abs(h) / 100, Abs(h) % 100, k);
    FractionBack(Abs(h) % 100, k);
  }

  lemma {:induction false} IntBack(n: int, k: string)
    requires EndsNumber(k)
    ensures ReadInt(Itoa(n) + k) == Got(n, k)
  {
    hide NumberText, Itoa, ReadNumber;
    IntegersAreNumbers(n);
    NumberBack(100 * n, k);
    assert (100 * n) % 100 == 0 && (100 * n) / 100 == n;
  }

  // ------------------------------------------------------------ string literals

  const BACKSPACE: char := 8 as char
  const FORM_FEED: char := 12 as char

  function HexDigit(d: nat): char
    requires d < 16
  {
    "0123456789abcdef"[d]
  }

  /** \u00XX */
  function UnicodeEscape(c: char): string
    requires c as int < 0x20
  {
    ['\\', 'u', '0', '0', HexDigit(c as int / 16), HexDigit(c as int % 16)]
  }

  /** The escapes both languages write as a backslash and one character. */
  function ShortEscape(c: char): Option<char>
  {
    if c == '"' then Some('"') else if c == '\\' then Some('\\') else if c == '\n' then Some('n')
    else if c == '\r' then Some('r') else if c == '\t' then Some('t') else None
  }

  function GoEscape(c: char): string
  {
    if ShortEscape(c).Some? then ['\\', ShortEscape(c).value]
    else if c as int < 0x20 then UnicodeEscape(c) else [c]
  }

  /** JSON.stringify also has short forms for backspace and form feed. */
  function TsEscape(c: char): string
  {
    if c == BACKSPACE then ['\\', 'b'] else if c == FORM_FEED then ['\\', 'f'] else GoEscape(c)
  }

  function EscapeAll(escape: char -> string, s: string): string
  {
    if s == "" then "" else EscapeAll(escape, s[..|s| - 1]) + escape(s[|s| - 1])
  }

  function Quoted(escape: char -> string, s: string): string
  {
    "\"" + EscapeAll(escape, s) + "\""
  }

  function HexValue(c: char): Option<nat>
  {
    if '0' <= c <= '9' then Some(c as int - '0' as int)
    else if 'a' <= c <= 'f' then Some(c as int - 'a' as int + 10)
    else if 'A' <= c <= 'F' then Some(c as int - 'A' as int + 10) else None
  }

  /** A unit of four hexadecimal digits; surrogates are refused. */
  function ReadUnit(s: string): Read<char>
  {
    if |s| < 4 then Bad
    else
      var a, b, c, d := HexValue(s[0]), HexValue(s[1]), HexValue(s[2]), HexValue(s[3]);
      if a.None? || b.None? || c.None? || d.None? then Bad
      else
        var u := ((a.value * 16 + b.value) * 16 + c.value) * 16 + d.value;
        if u < 0xD800 then Got(u as char, s[4..]) else if 0xE000 <= u < 0x1_0000 then Got(u as char, s[4..]) else Bad
  }

  /** One character of a literal, escaped or not. */
  function ReadChar(s: string): Read<char>
  {
    if s == "" || s[0] == '"' || s[0] as int < 0x20 then Bad
    else if s[0] != '\\' then Got(s[0], s[1..])
    else if |s| < 2 then Bad
    else if s[1] == '"' || s[1] == '\\' || s[1] == '/' then Got(s[1], s[2..])
    else if s[1] == 'b' then Got(BACKSPACE, s[2..])
    else if s[1] == 'f' then Got(FORM_FEED, s[2..])
    else if s[1] == 'n' then Got('\n', s[2..])
    else if s[1] == 'r' then Got('\r', s[2..])
    else if s[1] == 't' then Got('\t', s[2..])
    else if s[1] == 'u' then ReadUnit(s[2..])
    else Bad
  }

  function ReadChars(s: string, acc: string): Read<string>
    decreases |s|
  {
    if s != "" && s[0] == '"' then Got(acc, s[1..])
    else
      var (c, k) :- ReadChar(s);
      if |k| < |s| then ReadChars(k, acc + [c]) else Bad
  }

  function ReadString(s: string): Read<string>
  {
    if s == "" || s[0] != '"' then Bad else ReadChars(s[1..], "")
  }

  ghost predicate UndoneAt(escape: char -> string, c: char, k: string)
  {
    escape(c) != "" && escape(c)[0] != '"' && ReadChar(escape(c) + k) == Got(c, k)
  }

  /** An escape that the reader undoes whatever follows. */
  ghost predicate Undone(escape: char -> string)
  {
    forall c, k :: UndoneAt(escape, c, k)
  }

  lemma {:induction false} UnicodeUndone(c: char, k: string)
    requires c as int < 0x20
    ensures ReadChar(UnicodeEscape(c) + k) == Got(c, k)
  {
    var s := UnicodeEscape(c) + k;
    var hi, lo := c as int / 16, c as int % 16;
    assert s[2..][..4] == ['0', '0', HexDigit(hi), HexDigit(lo)];
    assert s[2..][4..] == k;
    assert HexValue(HexDigit(hi)) == Some(hi) && HexValue(HexDigit(lo)) == Some(lo);
  }

  lemma {:induction false} GoCharUndone(c: char, k: string)
    ensures UndoneAt(GoEscape, c, k)
  {
    if ShortEscape(c).None? && (c as int) < 0x20 {
      UnicodeUndone(c, k);
    } else {
      assert (GoEscape(c) + k)[|GoEscape(c)|..] == k;
    }
  }

  lemma {:induction false} TsCharUndone(c: char, k: string)
    ensures UndoneAt(TsEscape, c, k)
  {
    if c == BACKSPACE || c == FORM_FEED {
      assert (TsEscape(c) + k)[2..] == k;
    } else {
      GoCharUndone(c, k);
    }
  }

  /** Both languages' literals are read back. */
  lemma {:induction false} EscapesUndone()
    ensures Undone(GoEscape) && Undone(TsEscape)
  {
    hide UndoneAt;
    forall c, k
      ensures UndoneAt(GoEscape, c, k) && UndoneAt(TsEscape, c, k)
    {
      GoCharUndone(c, k);
      TsCharUndone(c, k);
    }
  }

  lemma {:induction false} CharsBack(escape: char -> string, s: string, k: string, acc: string)
    requires Undone(escape)
    ensures ReadChars(EscapeAll(escape, s) + k, acc) == ReadChars(k, acc + s)
  {
    if s == "" {
      assert "" + k == k && acc + s == acc;
    } else {
      var n := |s| - 1;
      var e := escape(s[n]);
      assert EscapeAll(escape, s[..n]) + e + k == EscapeAll(escape, s[..n]) + (e + k);
      CharsBack(escape, s[..n], e + k, acc);
      assert UndoneAt(escape, s[n], k);
      assert (e + k)[0] == e[0];
      assert acc + s[..n] + [s[n]] == acc + s;
    }
  }

  lemma {:induction false} StringBack(escape: char -> string, s: string, k: string)
    requires Undone(escape)
    ensures ReadString(Quoted(escape, s) + k) == Got(s, k)
  {
    var inner := EscapeAll(escape, s);
    assert (Quoted(escape, s) + k)[1..] == inner + ("\"" + k);
    CharsBack(escape, s, "\"" + k, "");
    assert "" + s == s && ("\"" + k)[1..] == k;
  }

  // ------------------------------------------------------------ Go against TypeScript

  /** Backspaces and form feeds. */
  function Specials(s: string): nat
  {
    if s == "" then 0
    else Specials(s[..|s| - 1]) + (if s[|s| - 1] == BACKSPACE || s[|s| - 1] == FORM_FEED then 1 else 0)
  }

  lemma {:induction false} CharGrows(c: char)
    ensures |GoEscape(c)| == |TsEscape(c)| + (if c == BACKSPACE || c == FORM_FEED then 4 else 0)
    ensures c != BACKSPACE && c != FORM_FEED ==> GoEscape(c) == TsEscape(c)
  {
  }

  lemma {:induction false} GoEscapesMore(s: string)
    ensures |EscapeAll(GoEscape, s)| == |EscapeAll(TsEscape, s)| + 4 * Specials(s)
    ensures Specials(s) == 0 ==> EscapeAll(GoEscape, s) == EscapeAll(TsEscape, s)
  {
    if s != "" {
      CharGrows(s[|s| - 1]);
      hide GoEscape, TsEscape;
      GoEscapesMore(s[..|s| - 1]);
    }
  }

  /** Each special character is four characters longer in Go; nothing else differs. */
  lemma {:induction false} GoIsLonger(s: string)
    ensures |Quoted(GoEscape, s)| == |Quoted(TsEscape, s)| + 4 * Specials(s)
    ensures Specials(s) == 0 ==> Quoted(GoEscape, s) == Quoted(TsEscape, s)
  {
    GoEscapesMore(s);
  }
}
