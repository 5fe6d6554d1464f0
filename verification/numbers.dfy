/** Reading numbers out of form text the two ways the client does:
    `Number(s)`, which accepts a whole decimal numeral after trimming (the
    empty text reads as 0, anything unreadable as NaN), and `parseInt(s)`,
    which reads the longest run of digits after leading white space and an
    optional sign, in base 16 after a `0x` or `0X` prefix and in base 10
    otherwise. `Number` is modelled on decimal numerals only. */
module Numbers {
  import opened Wrappers
  import opened Text

  predicate IsDigit(c: char) {
    '0' <= c <= '9'
  }

  predicate AllDigits(s: string) {
    forall i :: 0 <= i < |s| ==> IsDigit(s[i])
  }

  /** The value of a run of decimal digits, most significant first. */
  function DigitsValue(s: string): nat
    requires AllDigits(s)
    decreases |s|
  {
    if |s| == 0 then 0 else 10 * DigitsValue(s[..|s| - 1]) + (s[|s| - 1] as int - '0' as int)
  }

  function Pow10(k: nat): (r: nat)
    ensures r >= 1
  {
    if k == 0 then 1 else 10 * Pow10(k - 1)
  }

  /** `k` digits are worth less than `10^k`. */
  lemma {:induction false} DigitsBelowPow10(s: string)
    requires AllDigits(s)
    ensures DigitsValue(s) < Pow10(|s|)
    decreases |s|
  {
    if |s| > 0 {
      DigitsBelowPow10(s[..|s| - 1]);
    }
  }

  /** The position of the first `c` in `s`. */
  function FirstIndex(s: string, c: char): (r: nat)
    requires c in s
    ensures r < |s| && s[r] == c
    ensures forall j :: 0 <= j < r ==> s[j] != c
  {
    if s[0] == c then 0 else 1 + FirstIndex(s[1..], c)
  }

  /** An unsigned decimal numeral: digits, optionally with one point, and at
      least one digit on some side of it. */
  function Unsigned(t: string): (r: Option<real>)
    ensures r.Some? ==> r.value >= 0.0
    ensures AllDigits(t) && |t| > 0 ==> r == Some(DigitsValue(t) as real)
  {
    if '.' in t then
      var i := FirstIndex(t, '.');
      var whole := t[..i];
      var fraction := t[i + 1..];
      if |whole| + |fraction| > 0 && AllDigits(whole) && AllDigits(fraction) then
        Some(DigitsValue(whole) as real + DigitsValue(fraction) as real / Pow10(|fraction|) as real)
      else None
    else if |t| > 0 && AllDigits(t) then Some(DigitsValue(t) as real)
    else None
  }

  /** `Number(s)` on a string; `None` is NaN. */
  function ToNumber(s: string): (r: Option<real>)
    ensures Trim(s) == "" ==> r == Some(0.0)
    ensures AllDigits(Trim(s)) ==> r == Some(DigitsValue(Trim(s)) as real)
    ensures r.Some? && r.value < 0.0 ==> |Trim(s)| > 0 && Trim(s)[0] == '-'
  {
    var t := Trim(s);
    if t == "" then Some(0.0)
    else if t[0] == '-' then
      match Unsigned(t[1..])
      case Some(v) => Some(-v)
      case None => None
    else if t[0] == '+' then Unsigned(t[1..])
    else Unsigned(t)
  }

  /** The longest run of digits `s` starts with. */
  function DigitPrefix(s: string): (r: string)
    ensures AllDigits(r) && |r| <= |s| && r == s[..|r|]
    ensures |r| < |s| ==> !IsDigit(s[|r|])
  {
    if |s| > 0 && IsDigit(s[0]) then
      var rest := DigitPrefix(s[1..]);
      assert [s[0]] + s[1..][..|rest|] == s[..|rest| + 1];
      [s[0]] + rest
    else ""
  }

  predicate IsHexDigit(c: char) {
    IsDigit(c) || 'a' <= c <= 'f' || 'A' <= c <= 'F'
  }

  predicate AllHexDigits(s: string) {
    forall i :: 0 <= i < |s| ==> IsHexDigit(s[i])
  }

  function HexDigitValue(c: char): (r: nat)
    requires IsHexDigit(c)
    ensures r < 16
    ensures IsDigit(c) ==> r == c as int - '0' as int
  {
    if IsDigit(c) then c as int - '0' as int
    else if 'a' <= c <= 'f' then c as int - 'a' as int + 10
    else c as int - 'A' as int + 10
  }

  /** The value of a run of hexadecimal digits, most significant first. */
  function HexValue(s: string): nat
    requires AllHexDigits(s)
    decreases |s|
  {
    if |s| == 0 then 0 else 16 * HexValue(s[..|s| - 1]) + HexDigitValue(s[|s| - 1])
  }

  /** The longest run of hexadecimal digits `s` starts with. */
  function HexPrefix(s: string): (r: string)
    ensures AllHexDigits(r) && |r| <= |s| && r == s[..|r|]
    ensures |r| < |s| ==> !IsHexDigit(s[|r|])
  {
    if |s| > 0 && IsHexDigit(s[0]) then
      var rest := HexPrefix(s[1..]);
      assert [s[0]] + s[1..][..|rest|] == s[..|rest| + 1];
      [s[0]] + rest
    else ""
  }

  /** The prefix that switches `parseInt` with no radix to base 16. */
  predicate HexMarked(u: string) {
    |u| >= 2 && u[0] == '0' && (u[1] == 'x' || u[1] == 'X')
  }

  /** What `parseInt` reads after the white space and the sign. */
  function Unsign(t: string): string {
    if |t| > 0 && (t[0] == '-' || t[0] == '+') then t[1..] else t
  }

  /** The number `parseInt` reads once the white space and the sign are
      gone: a run of hexadecimal digits after a `0x` prefix, else a run of
      decimal digits; `None` when the run is empty. */
  function Magnitude(u: string): (r: Option<nat>)
    ensures HexMarked(u) ==> (r.None? <==> |u| == 2 || !IsHexDigit(u[2]))
    ensures !HexMarked(u) ==> (r.None? <==> |u| == 0 || !IsDigit(u[0]))
  {
    if HexMarked(u) then
      var digits := HexPrefix(u[2..]);
      if digits == "" then None else Some(HexValue(digits))
    else
      var digits := DigitPrefix(u);
      if digits == "" then None else Some(DigitsValue(digits))
  }

  /** `parseInt(s)`; `None` is NaN. */
  function ParseInt(s: string): (r: Option<int>)
    ensures var u := Unsign(TrimStart(s));
      HexMarked(u) ==> (r.None? <==> |u| == 2 || !IsHexDigit(u[2]))
    ensures var u := Unsign(TrimStart(s));
      !HexMarked(u) ==> (r.None? <==> |u| == 0 || !IsDigit(u[0]))
  {
    var t := TrimStart(s);
    match Magnitude(Unsign(t))
    case None => None
    case Some(v) =>
      var n: int := v;
      Some(if |t| > 0 && t[0] == '-' then -n else n)
  }

  /** A `0x` prefix reads the rest in base 16, under either sign, and with
      no hexadecimal digit after it the text is NaN. */
  lemma HexPrefixRead()
    ensures ParseInt("0x10") == Some(16)
    ensures ParseInt("-0XfF") == Some(-255)
    ensures ParseInt("0x").None? && ParseInt("0xg").None?
  {
    HexSixteen();
    HexMinusFF();
    HexWithoutDigits();
  }

  lemma HexWithoutDigits()
    ensures ParseInt("0x").None? && ParseInt("0xg").None?
  {
    TrimWithoutSpace("0x");
    TrimWithoutSpace("0xg");
    assert Unsign("0x") == "0x" && HexMarked("0x");
    assert Unsign("0xg") == "0xg" && HexMarked("0xg") && !IsHexDigit("0xg"[2]);
  }

  lemma HexSixteen()
    ensures ParseInt("0x10") == Some(16)
  {
    TrimWithoutSpace("0x10");
    assert "0x10"[2..] == "10";
    assert HexPrefix("10") == "10";
    assert "10"[..1] == "1";
    assert HexValue("10") == 16;
  }

  lemma HexMinusFF()
    ensures ParseInt("-0XfF") == Some(-255)
  {
    TrimWithoutSpace("-0XfF");
    assert Unsign("-0XfF") == "0XfF";
    assert "0XfF"[2..] == "fF";
    assert HexPrefix("fF") == "fF";
    assert "fF"[..1] == "f";
    assert HexValue("fF") == 255;
  }

  /** Digits and the text that prints them agree. */
  lemma {:induction false} DigitsOfNatToString(n: nat)
    ensures AllDigits(NatToString(n)) && DigitsValue(NatToString(n)) == n
  {
    var s := NatToString(n);
    if n >= 10 {
      DigitsOfNatToString(n / 10);
      assert s[..|s| - 1] == NatToString(n / 10);
    }
  }

  /** Text without white space is its own trim. */
  lemma TrimWithoutSpace(s: string)
    requires forall i :: 0 <= i < |s| ==> !IsSpace(s[i])
    ensures TrimStart(s) == s && Trim(s) == s
  {
  }

  /** Both readers read back a printed count. */
  lemma NumbersReadNatToString(n: nat)
    ensures ToNumber(NatToString(n)) == Some(n as real)
    ensures ParseInt(NatToString(n)) == Some(n)
  {
    var s := NatToString(n);
    DigitsOfNatToString(n);
    TrimWithoutSpace(s);
    ParseIntOfDigits(s);
  }

  lemma ParseIntOfDigits(s: string)
    requires |s| > 0 && AllDigits(s)
    ensures ParseInt(s) == Some(DigitsValue(s) as int)
  {
    DigitsHaveNoSpace(s);
    TrimWithoutSpace(s);
    assert IsDigit(s[0]);
    assert Unsign(s) == s;
    MagnitudeOfDigits(s);
  }

  lemma MagnitudeOfDigits(s: string)
    requires |s| > 0 && AllDigits(s)
    ensures Magnitude(s) == Some(DigitsValue(s))
  {
    assert |s| < 2 || IsDigit(s[1]);
    assert !HexMarked(s);
    DigitPrefixOfDigits(s);
  }

  lemma DigitsHaveNoSpace(s: string)
    requires AllDigits(s)
    ensures forall i :: 0 <= i < |s| ==> !IsSpace(s[i])
  {
    forall i | 0 <= i < |s| ensures !IsSpace(s[i]) {
      assert IsDigit(s[i]);
    }
  }

  /** A run of digits is its own longest digit prefix. */
  lemma {:induction false} DigitPrefixOfDigits(s: string)
    requires AllDigits(s)
    ensures DigitPrefix(s) == s
    decreases |s|
  {
    if |s| > 0 {
      assert IsDigit(s[0]);
      assert AllDigits(s[1..]) by {
        forall i | 0 <= i < |s| - 1 ensures IsDigit(s[1..][i]) {
          assert s[1..][i] == s[i + 1];
        }
      }
      DigitPrefixOfDigits(s[1..]);
      assert [s[0]] + s[1..] == s;
    }
  }

  /** On a numeral `Number` accepts and that starts with a digit, `parseInt`
      keeps the integer part: a non-negative amount is truncated. */
  lemma ParseIntTruncates(s: string)
    requires forall i :: 0 <= i < |s| ==> !IsSpace(s[i])
    requires |s| > 0 && IsDigit(s[0])
    requires ToNumber(s).Some?
    ensures ParseInt(s) == Some(ToNumber(s).value.Floor)
  {
    if '.' in s {
      ParseIntTruncatesFraction(s);
    } else {
      TrimWithoutSpace(s);
      assert AllDigits(s);
      ParseIntOfDigits(s);
    }
  }

  lemma ParseIntTruncatesFraction(s: string)
    requires forall i :: 0 <= i < |s| ==> !IsSpace(s[i])
    requires |s| > 0 && IsDigit(s[0]) && '.' in s
    requires ToNumber(s).Some?
    ensures ParseInt(s) == Some(ToNumber(s).value.Floor)
  {
    var i := FirstIndex(s, '.');
    var fraction := s[i + 1..];
    NumberOfFraction(s);
    var w := DigitsValue(s[..i]);
    var f := DigitsValue(fraction);
    var p := Pow10(|fraction|);
    assert ToNumber(s) == Some(w as real + f as real / p as real);
    ParseIntStopsAtPoint(s, i);
    DigitsBelowPow10(fraction);
    FloorOfFraction(w, f, p);
  }

  lemma NumberOfFraction(s: string)
    requires forall i :: 0 <= i < |s| ==> !IsSpace(s[i])
    requires |s| > 0 && IsDigit(s[0]) && '.' in s
    requires ToNumber(s).Some?
    ensures var i := FirstIndex(s, '.');
      && 0 < i && AllDigits(s[..i]) && AllDigits(s[i + 1..])
      && ToNumber(s) == Some(DigitsValue(s[..i]) as real + DigitsValue(s[i + 1..]) as real / Pow10(|s[i + 1..]|) as real)
  {
    NumberIsUnsigned(s);
    var i := FirstIndex(s, '.');
    assert s[0] != '.';
    assert Unsigned(s).Some?;
  }

  lemma NumberIsUnsigned(s: string)
    requires forall i :: 0 <= i < |s| ==> !IsSpace(s[i])
    requires |s| > 0 && IsDigit(s[0])
    ensures ToNumber(s) == Unsigned(s)
  {
    TrimWithoutSpace(s);
    assert s[0] != '-' && s[0] != '+';
  }

  lemma ParseIntStopsAtPoint(s: string, i: nat)
    requires forall k :: 0 <= k < |s| ==> !IsSpace(s[k])
    requires 0 < i < |s| && s[i] == '.' && AllDigits(s[..i])
    ensures ParseInt(s) == Some(DigitsValue(s[..i]) as int)
  {
    TrimWithoutSpace(s);
    assert s[0] == s[..i][0];
    assert i < 2 || IsDigit(s[..i][1]);
    assert !HexMarked(s);
    var d := DigitPrefix(s);
    assert |d| == i;
  }

  lemma FloorOfFraction(w: nat, f: nat, p: nat)
    requires f < p
    ensures (w as real + f as real / p as real).Floor == w
  {
    assert 0.0 <= f as real / p as real < 1.0;
  }

  /** The two readers part ways on a fraction: half a unit reads as 0.5 for
      the validator but saves as 0, and a leading point is NaN to `parseInt`. */
  lemma FractionsPartWays()
    ensures ToNumber("0.5") == Some(0.5) && ParseInt("0.5") == Some(0)
    ensures ToNumber(".5") == Some(0.5) && ParseInt(".5").None?
  {
    TrimWithoutSpace("0.5");
    TrimWithoutSpace(".5");
    assert FirstIndex("0.5", '.') == 1;
    assert FirstIndex(".5", '.') == 0;
    assert "0.5"[..1] == "0" && "0.5"[2..] == "5";
    assert ".5"[..0] == "" && ".5"[1..] == "5";
    assert DigitPrefix("0.5") == "0";
  }
}
