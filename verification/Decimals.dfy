/** src/serializer.cpp: the decimals that settings are written as, and the trimming of their zeros in place. */
module Decimals {
  import opened Lines
  import opened ProgramTexts

  const PLACES := 15
  const ONE := 1_000_000_000_000_000

  function Pow10(n: nat): (r: nat)
    ensures r > 0
  {
    if n == 0 then 1 else 10 * Pow10(n - 1)
  }

  lemma PlacesOfOne()
    ensures Pow10(PLACES) == ONE && Pow10(1) == 10
  {
    assert Pow10(5) == 100_000;
    assert Pow10(10) == 10_000_000_000;
  }

  /** Nearest integer, halves to the even one, as in formatted output. */
  function RoundEven(x: real): int {
    var f := x.Floor;
    var rest := x - f as real;
    if rest < 0.5 || (rest == 0.5 && f % 2 == 0) then f else f + 1
  }

  // ---- Numerals ----

  function DigitValue(c: char): nat
    requires IsDigit(c)
  {
    c as int - 48
  }

  function Padded(n: nat, width: nat): (r: string)
    ensures |r| == width && forall c :: c in r ==> IsDigit(c)
  {
    if width == 0 then "" else Padded(n / 10, width - 1) + [Digit(n % 10)]
  }

  /** A ratio with all its places. */
  function Numeral(k: nat): string
    requires k <= ONE
  {
    Padded(k / ONE, 1) + "." + Padded(k % ONE, PLACES)
  }

  ghost predicate IsNumeral(text: string) {
    forall c :: c in text ==> IsDigit(c) || c == '.'
  }

  /** The digits read as one integer, whether or not a dot stands between them. */
  function Mantissa(text: string): nat
    requires IsNumeral(text)
  {
    if text == "" then 0
    else
      var start, c := text[..|text| - 1], text[|text| - 1];
      assert c in text && forall d :: d in start ==> d in text;
      if c == '.' then Mantissa(start) else 10 * Mantissa(start) + DigitValue(c)
  }

  /** How many characters follow the last dot. */
  function Places(text: string): nat {
    if '.' !in text || text[|text| - 1] == '.' then 0 else 1 + Places(text[..|text| - 1])
  }

  function Number(text: string): real
    requires IsNumeral(text)
  {
    Mantissa(text) as real / Pow10(Places(text)) as real
  }

  lemma AppendedDigit(text: string, c: char)
    requires IsNumeral(text) && IsDigit(c)
    ensures IsNumeral(text + [c]) && Mantissa(text + [c]) == 10 * Mantissa(text) + DigitValue(c)
    ensures Places(text + [c]) == if '.' in text then Places(text) + 1 else 0
  {
    assert (text + [c])[..|text|] == text;
    assert '.' in text + [c] <==> '.' in text;
  }

  lemma AppendedZero(text: string)
    requires IsNumeral(text) && '.' in text
    ensures IsNumeral(text + "0") && Number(text + "0") == Number(text)
  {
    AppendedDigit(text, '0');
    Scaled(Mantissa(text) as real, Pow10(Places(text)) as real);
    assert Pow10(Places(text) + 1) == 10 * Pow10(Places(text));
  }

  lemma Scaled(m: real, p: real)
    requires p > 0.0
    ensures (10.0 * m) / (10.0 * p) == m / p
  {
  }

  lemma {:induction false} AppendedPadding(text: string, n: nat, width: nat)
    requires IsNumeral(text) && n < Pow10(width)
    ensures IsNumeral(text + Padded(n, width)) && Mantissa(text + Padded(n, width)) == Pow10(width) * Mantissa(text) + n
    ensures '.' in text ==> Places(text + Padded(n, width)) == Places(text) + width
  {
    if width == 0 {
      assert text + "" == text;
    } else {
      AppendedPadding(text, n / 10, width - 1);
      var start := text + Padded(n / 10, width - 1);
      assert text + Padded(n, width) == start + [Digit(n % 10)];
      AppendedDigit(start, Digit(n % 10));
      assert Pow10(width) * Mantissa(text) == 10 * (Pow10(width - 1) * Mantissa(text)) by {
        Tenfold(Pow10(width - 1), Mantissa(text));
      }
    }
  }

  lemma Tenfold(a: int, b: int)
    ensures 10 * a * b == 10 * (a * b)
  {
  }

  /** A printed ratio denotes what it was printed from. */
  lemma NumeralDenotes(k: nat)
    requires k <= ONE
    ensures IsNumeral(Numeral(k)) && Number(Numeral(k)) == k as real / ONE as real
  {
    hide Pow10, Padded, Mantissa, Places;
    PlacesOfOne();
    AppendedPadding("", k / ONE, 1);
    NothingRead();
    var whole := Padded(k / ONE, 1);
    assert "" + whole == whole;
    AppendedDot(whole);
    AppendedPadding(whole + ".", k % ONE, PLACES);
  }

  lemma NothingRead()
    ensures Mantissa("") == 0
  {
  }

  lemma AppendedDot(text: string)
    requires IsNumeral(text)
    ensures IsNumeral(text + ".") && Mantissa(text + ".") == Mantissa(text) && Places(text + ".") == 0
  {
    assert (text + ".")[..|text|] == text;
  }

  // ---- Trimming ----

  function ZeroRun(s: string): (r: nat)
    ensures r <= |s| && forall i :: |s| - r <= i < |s| ==> s[i] == '0'
    ensures r < |s| ==> s[|s| - r - 1] != '0'
  {
    if s != "" && s[|s| - 1] == '0' then 1 + ZeroRun(s[..|s| - 1]) else 0
  }

  /** Of the zeros at the end of a text with a dot, one is left. */
  function Trimmed(s: string): string {
    if '.' !in s || ZeroRun(s) <= 1 then s else s[..|s| - ZeroRun(s) + 1]
  }

  /** Trimming changes how a number is written, not the number. */
  lemma {:induction false} TrimmingKeepsNumber(s: string)
    requires IsNumeral(s)
    ensures IsNumeral(Trimmed(s)) && Number(Trimmed(s)) == Number(s) && |Trimmed(s)| <= |s|
    ensures s != "" ==> Trimmed(s) != "" && (IsDigit(s[0]) ==> IsDigit(Trimmed(s)[0]))
  {
    hide Mantissa, Places;
    if '.' in s && ZeroRun(s) > 1 {
      var start := s[..|s| - 1];
      assert s == start + "0" && forall c :: c in start ==> c in s;
      AppendedZero(start);
      assert s[..|s| - ZeroRun(s) + 1] == start[..|start| - ZeroRun(start) + 1];
      assert ZeroRun(start) == 1 ==> start[..|start|] == start;
      TrimmingKeepsNumber(start);
    }
  }

  /** A text as it stands in a buffer, up to its terminator. */
  ghost predicate Terminated(buffer: seq<char>, n: nat) {
    n < |buffer| && buffer[n] == '\0' && forall i :: 0 <= i < n ==> buffer[i] != '\0'
  }

  lemma {:induction false} TerminatedText(buffer: seq<char>, n: nat)
    requires Terminated(buffer, n)
    ensures CString(buffer) == buffer[..n]
  {
    if n > 0 {
      TerminatedText(buffer[1..], n - 1);
      assert buffer[..n] == [buffer[0]] + buffer[1..][..n - 1];
    }
  }

  /** src/serializer.cpp:75-119 */
  method TrimExcessZerosFromEnd(number: array<char>, length: int, maxLength: nat, ghost n: nat)
    requires maxLength == number.Length && Terminated(number[..], n)
    modifies number
    ensures CString(number[..]) == if length < 1 then old(number[..n]) else Trimmed(old(number[..n]))
  {
    TerminatedText(number[..], n);
    if length < 1 || maxLength < 1 {
      return;
    }
    var dotIndex := FindDot(number, maxLength, n);
    if dotIndex == maxLength {
      return;
    }
    var lastZeroIndex := FindLastZeros(number, maxLength, dotIndex, n);
    if lastZeroIndex == maxLength {
      return;
    }
    lastZeroIndex := lastZeroIndex + 1;
    if lastZeroIndex < maxLength {
      number[lastZeroIndex] := '\0';
      TerminatedText(number[..], lastZeroIndex);
      assert number[..lastZeroIndex] == old(number[..n])[..lastZeroIndex];
    }
  }

  method FindDot(number: array<char>, maxLength: nat, ghost n: nat) returns (dotIndex: nat)
    requires maxLength == number.Length && Terminated(number[..], n)
    ensures dotIndex == maxLength <==> '.' !in number[..n]
    ensures dotIndex != maxLength ==> dotIndex < n && number[dotIndex] == '.'
  {
    dotIndex := maxLength;
    var i := 0;
    while number[i] != '\0' && i != maxLength
      invariant 0 <= i <= n && '.' !in number[..i]
      decreases n - i
    {
      if number[i] == '.' {
        dotIndex := i;
        assert number[..n][i] == '.';
        return;
      }
      i := i + 1;
    }
  }

  method FindLastZeros(number: array<char>, maxLength: nat, dotIndex: nat, ghost n: nat) returns (lastZeroIndex: nat)
    requires maxLength == number.Length && Terminated(number[..], n) && dotIndex < n && number[dotIndex] == '.'
    ensures lastZeroIndex == if ZeroRun(number[..n]) == 0 then maxLength else n - ZeroRun(number[..n])
  {
    lastZeroIndex := maxLength;
    var i := dotIndex;
    ghost var run := 0;
    while number[i] != '\0' && i != maxLength
      invariant dotIndex <= i <= n && (i > dotIndex ==> run == ZeroRun(number[..i])) && (i == dotIndex ==> run == 0)
      invariant lastZeroIndex == if run == 0 then maxLength else i - run
      decreases n - i
    {
      assert number[..i + 1][..i] == number[..i];
      if number[i] != '0' {
        lastZeroIndex := maxLength;
        run := 0;
      } else {
        if lastZeroIndex == maxLength {
          lastZeroIndex := i;
        }
        run := run + 1;
      }
      i := i + 1;
    }
  }

  /** snprintf: a text and its terminator. */
  method Print(buffer: array<char>, text: string)
    requires |text| < buffer.Length && '\0' !in text
    modifies buffer
    ensures Terminated(buffer[..], |text|) && buffer[..|text|] == text
  {
    for i := 0 to |text|
      invariant buffer[..i] == text[..i]
    {
      buffer[i] := text[i];
    }
    buffer[|text|] := '\0';
    assert buffer[..|text|] == text;
    assert forall i :: 0 <= i < |text| ==> buffer[..][i] == text[i] && text[i] in text;
  }
}
