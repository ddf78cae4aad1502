/** The numbered-menu selection shared by list_all_voices.py and
    Voice_output_test.py: `voices[int(voice_num) - 1]`, where a `ValueError`
    from `int` or an `IndexError` from the subscript prints "Invalid choice!".
    Python's negative subscripts make "0" and small negative numbers valid. */
module Menu {
  import opened Common

  // ---------------------------------------------------------------------------
  // int(text): surrounding whitespace, an optional sign, then decimal digits

  /** The ASCII characters `str.isspace` accepts (tab, newline, vertical tab,
      form feed, carriage return, the four separators 0x1C-0x1F, and space). */
  predicate IsSpace(c: char) {
    c == ' ' || 9 <= c as int <= 13 || 28 <= c as int <= 31
  }

  predicate IsDigit(c: char) {
    '0' <= c <= '9'
  }

  predicate AllDigits(s: string) {
    forall i :: 0 <= i < |s| ==> IsDigit(s[i])
  }

  predicate AllSpace(s: string) {
    forall i :: 0 <= i < |s| ==> IsSpace(s[i])
  }

  /** `s.lstrip()`: drops the leading whitespace; the result does not start
      with whitespace. */
  function TrimStart(s: string): (r: string)
    ensures |r| <= |s|
    ensures r != [] ==> !IsSpace(r[0])
  {
    if s != [] && IsSpace(s[0]) then TrimStart(s[1..]) else s
  }

  /** `s.rstrip()`: drops the trailing whitespace; the result does not end
      with whitespace. */
  function TrimEnd(s: string): (r: string)
    ensures |r| <= |s|
    ensures r != [] ==> !IsSpace(r[|r| - 1])
  {
    if s != [] && IsSpace(s[|s| - 1]) then TrimEnd(s[..|s| - 1]) else s
  }

  /** `lstrip` keeps a suffix of `s`, and everything it drops is whitespace. */
  lemma {:induction false} TrimStartSpec(s: string)
    ensures var r := TrimStart(s);
      r == s[|s| - |r|..] && AllSpace(s[..|s| - |r|])
  {
    if s != [] && IsSpace(s[0]) {
      TrimStartSpec(s[1..]);
      var r := TrimStart(s);
      assert s[..|s| - |r|] == [s[0]] + s[1..][..|s| - 1 - |r|];
    }
  }

  /** `rstrip` keeps a prefix of `s`, and everything it drops is whitespace. */
  lemma {:induction false} TrimEndSpec(s: string)
    ensures var r := TrimEnd(s);
      r == s[..|r|] && AllSpace(s[|r|..])
  {
    if s != [] && IsSpace(s[|s| - 1]) {
      TrimEndSpec(s[..|s| - 1]);
      var r := TrimEnd(s);
      assert s[|r|..] == s[..|s| - 1][|r|..] + [s[|s| - 1]];
    }
  }

  function Strip(s: string): string {
    TrimEnd(TrimStart(s))
  }

  function DigitValue(c: char): nat
    requires IsDigit(c)
  {
    c as int - '0' as int
  }

  /** The value of a string of decimal digits, most significant first. */
  function DigitsValue(d: string): nat
    requires AllDigits(d)
  {
    if d == [] then 0 else DigitsValue(d[..|d| - 1]) * 10 + DigitValue(d[|d| - 1])
  }

  /** Python's `int(text)` on a string: `None` stands for the `ValueError`. */
  function ParseInt(text: string): (r: Option<int>) {
    var t := Strip(text);
    var body := if t != [] && (t[0] == '-' || t[0] == '+') then t[1..] else t;
    if body != [] && AllDigits(body) then
      Some(if t[0] == '-' then -(DigitsValue(body) as int) else DigitsValue(body))
    else
      None
  }

  /** Surrounding whitespace does not matter, and a number is read only from
      a stripped text that is a sign or digit followed by digits, negative
      only after a '-'. */
  lemma ParseIntSpec(text: string)
    ensures ParseInt(Strip(text)) == ParseInt(text)
    ensures var t := Strip(text);
      ParseInt(text).Some? ==>
        t != [] && (IsDigit(t[0]) || t[0] == '-' || t[0] == '+') && (forall i :: 0 < i < |t| ==> IsDigit(t[i])) &&
        (ParseInt(text).value < 0 ==> t[0] == '-')
  {
    var t := Strip(text);
    if t != [] {
      var u := TrimStart(text);
      TrimEndSpec(u);
      assert t[0] == u[0];
      StripUnspaced(t);
    }
  }

  /** A run of digits reads as its value, with or without a '+', and negated
      after a '-'. */
  lemma ParseIntSigned(d: string)
    requires d != [] && AllDigits(d)
    ensures ParseInt(d) == Some(DigitsValue(d) as int)
    ensures ParseInt("+" + d) == ParseInt(d)
    ensures ParseInt("-" + d) == Some(-(DigitsValue(d) as int))
  {
    ParseIntUnsigned(d);
    ParseIntAfterSign('+', d);
    ParseIntAfterSign('-', d);
  }

  lemma ParseIntUnsigned(d: string)
    requires d != [] && AllDigits(d)
    ensures ParseInt(d) == Some(DigitsValue(d) as int)
  {
    assert IsDigit(d[0]) && IsDigit(d[|d| - 1]);
    StripUnspaced(d);
  }

  lemma ParseIntAfterSign(sign: char, d: string)
    requires sign == '+' || sign == '-'
    requires d != [] && AllDigits(d)
    ensures ParseInt([sign] + d) == Some(if sign == '-' then -(DigitsValue(d) as int) else DigitsValue(d) as int)
  {
    var t := [sign] + d;
    assert IsDigit(d[|d| - 1]) && t[|t| - 1] == d[|d| - 1];
    StripUnspaced(t);
    assert t[0] == sign && t[1..] == d;
  }

  /** A string made only of whitespace (the empty reply included) is never a number. */
  lemma {:induction false} BlankIsNotANumber(text: string)
    requires forall i :: 0 <= i < |text| ==> IsSpace(text[i])
    ensures ParseInt(text) == None
  {
    BlankTrimsToEmpty(text);
  }

  lemma {:induction false} BlankTrimsToEmpty(text: string)
    requires forall i :: 0 <= i < |text| ==> IsSpace(text[i])
    ensures TrimStart(text) == []
  {
    if text != [] {
      BlankTrimsToEmpty(text[1..]);
    }
  }

  // ---------------------------------------------------------------------------
  // str(n), the inverse of int on the numbers the menu prints

  function DecimalDigits(n: nat): (d: string)
    ensures d != [] && AllDigits(d)
  {
    if n < 10 then [('0' as int + n) as char]
    else DecimalDigits(n / 10) + [('0' as int + n % 10) as char]
  }

  function Show(n: int): string {
    if n < 0 then "-" + DecimalDigits(-n) else DecimalDigits(n)
  }

  lemma {:induction false} DecimalDigitsValue(n: nat)
    ensures DigitsValue(DecimalDigits(n)) == n
  {
    if n >= 10 {
      var d := DecimalDigits(n);
      assert d[..|d| - 1] == DecimalDigits(n / 10);
      DecimalDigitsValue(n / 10);
    }
  }

  /** Reading back what `str` printed gives the number again. */
  lemma ParseShow(n: int)
    ensures ParseInt(Show(n)) == Some(n)
  {
    var m := if n < 0 then -n else n;
    var d := DecimalDigits(m);
    DecimalDigitsValue(m);
    var s := Show(n);
    assert IsDigit(d[0]) && IsDigit(d[|d| - 1]);
    assert s == (if n < 0 then "-" + d else d);
    assert s[|s| - 1] == d[|d| - 1];
    StripUnspaced(s);
    if n < 0 {
      assert s[0] == '-' && s[1..] == d;
    } else {
      assert s[0] != '-' && s[0] != '+';
    }
  }

  /** A string that neither starts nor ends with whitespace is its own strip. */
  lemma StripUnspaced(s: string)
    requires s != [] && !IsSpace(s[0]) && !IsSpace(s[|s| - 1])
    ensures Strip(s) == s
  {
    assert TrimStart(s) == s;
    assert TrimEnd(s) == s;
  }

  // ---------------------------------------------------------------------------
  // voices[int(voice_num) - 1]

  /** Python's `items[i]`: negative indices count from the end, and anything
      outside `-len .. len - 1` is an `IndexError` (`None`). */
  function PythonIndex(len: nat, i: int): (r: Option<nat>)
    ensures r.Some? <==> -(len as int) <= i < len
    ensures r.Some? ==> r.value < len && (r.value == i || r.value == len + i)
  {
    if 0 <= i < len then Some(i)
    else if -(len as int) <= i < 0 then Some(len + i)
    else None
  }

  /** The voice picked by the reply `answer`, or `None` for "Invalid choice!". */
  function Choose<T>(items: seq<T>, answer: string): (r: Option<T>)
    ensures r.Some? ==> r.value in items
  {
    match ParseInt(answer)
    case None => None
    case Some(n) =>
      match PythonIndex(|items|, n - 1)
      case None => None
      case Some(k) => Some(items[k])
  }

  /** A reply is accepted exactly when it is a number from `1 - len` to `len`;
      numbers from 1 up pick the item at that position, 0 and below count
      back from the last item. */
  lemma ChooseAccepts<T>(items: seq<T>, answer: string)
    ensures Choose(items, answer).Some? <==>
      ParseInt(answer).Some? && 1 - |items| <= ParseInt(answer).value <= |items|
    ensures Choose(items, answer).Some? && ParseInt(answer).value >= 1 ==>
      Choose(items, answer).value == items[ParseInt(answer).value - 1]
    ensures Choose(items, answer).Some? && ParseInt(answer).value <= 0 ==>
      Choose(items, answer).value == items[|items| + ParseInt(answer).value - 1]
  {
  }

  /** Typing a listed number picks the voice printed beside it. */
  lemma ChooseListedNumber<T>(items: seq<T>, n: int)
    requires 1 <= n <= |items|
    ensures Choose(items, Show(n)) == Some(items[n - 1])
  {
    ParseShow(n);
  }

  /** The quirk of Python's negative subscripts: "0" picks the last voice. */
  lemma ChooseZeroPicksLast<T>(items: seq<T>)
    requires items != []
    ensures Choose(items, "0") == Some(items[|items| - 1])
  {
    assert Strip("0") == "0";
    assert DigitsValue("0") == DigitsValue("0"[..0]) * 10 + DigitValue('0');
  }
}
