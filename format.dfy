/**
  Text rendering used by the disassembler's printf-style formats:
  `%i` (Dec), `%+i` (SignedDec), `%0Nx` / `%0NX` (Hex) and `%-8s` (PadRight).
  Each renderer comes with the parser that inverts it, and a lemma that
  parsing the rendered text gives the value back.
*/
module Format {

  function DecDigit(d: nat): (ch: char)
    requires d < 10
    ensures '0' <= ch <= '9'
  {
    (0x30 + d) as char
  }

  function HexDigit(d: nat, upper: bool): (ch: char)
    requires d < 16
  {
    if d < 10 then (0x30 + d) as char
    else if upper then (0x41 + d - 10) as char
    else (0x61 + d - 10) as char
  }

  /** Value of one hexadecimal digit of either case. */
  function HexDigitValue(ch: char): nat
  {
    if '0' <= ch <= '9' then ch as int - 0x30
    else if 'a' <= ch <= 'f' then ch as int - 0x61 + 10
    else if 'A' <= ch <= 'F' then ch as int - 0x41 + 10
    else 0
  }

  /** `%i` of a non-negative value: the shortest decimal numeral. */
  function Dec(n: nat): (s: string)
    ensures 1 <= |s|
    ensures forall i :: 0 <= i < |s| ==> '0' <= s[i] <= '9'
    ensures s[0] == '0' ==> n == 0
    decreases n
  {
    if n < 10 then [DecDigit(n)] else Dec(n / 10) + [DecDigit(n % 10)]
  }

  function DecValue(s: string): nat
    decreases |s|
  {
    if s == [] then 0 else DecValue(s[..|s| - 1]) * 10 + (s[|s| - 1] as int - 0x30) % 10
  }

  lemma {:induction false} DecRoundTrip(n: nat)
    ensures DecValue(Dec(n)) == n
    decreases n
  {
    if n >= 10 {
      AppendDigit(Dec(n / 10), n % 10);
      DecRoundTrip(n / 10);
    }
  }

  /** Appending a digit multiplies the value by ten and adds the digit. */
  lemma AppendDigit(p: string, d: nat)
    requires d < 10
    ensures DecValue(p + [DecDigit(d)]) == DecValue(p) * 10 + d
  {
    var s := p + [DecDigit(d)];
    assert s[..|s| - 1] == p;
  }

  /** Distinct values are printed as distinct numerals. */
  lemma DecInjective(m: nat, n: nat)
    requires Dec(m) == Dec(n)
    ensures m == n
  {
    DecRoundTrip(m);
    DecRoundTrip(n);
  }

  function Abs(i: int): nat { if i < 0 then -i else i }

  /** `%+i`: a sign is always written, also for zero. */
  function SignedDec(i: int): (s: string)
    ensures 2 <= |s| && (s[0] == '-' <==> i < 0) && (s[0] == '+' <==> i >= 0)
  {
    (if i < 0 then "-" else "+") + Dec(Abs(i))
  }

  function SignedValue(s: string): (v: int)
  {
    if s == [] then 0
    else if s[0] == '-' then 0 - DecValue(s[1..]) as int
    else DecValue(s[1..])
  }

  lemma SignedRoundTrip(i: int)
    ensures SignedValue(SignedDec(i)) == i
  {
    var s := SignedDec(i);
    assert s[1..] == Dec(Abs(i));
    DecRoundTrip(Abs(i));
  }

  function Pow16(n: nat): (p: nat)
    ensures 1 <= p
  {
    if n == 0 then 1 else 16 * Pow16(n - 1)
  }

  /**
    `%0<width>x` (lower case) or `%0<width>X` (upper case): the low `width`
    hexadecimal digits of `n`, most significant first.
  */
  function Hex(n: nat, width: nat, upper: bool): (s: string)
    ensures |s| == width
    ensures forall i :: 0 <= i < |s| ==> HexDigitValue(s[i]) < 16
    decreases width
  {
    if width == 0 then "" else Hex(n / 16, width - 1, upper) + [HexDigit(n % 16, upper)]
  }

  lemma HexDigitRoundTrip(d: nat, upper: bool)
    requires d < 16
    ensures HexDigitValue(HexDigit(d, upper)) == d
  {
  }

  function HexValue(s: string): nat
    decreases |s|
  {
    if s == [] then 0 else HexValue(s[..|s| - 1]) * 16 + HexDigitValue(s[|s| - 1])
  }

  /** Every value that fits in `width` digits is printed exactly, whatever the case. */
  lemma {:induction false} HexRoundTrip(n: nat, width: nat, upper: bool)
    requires n < Pow16(width)
    ensures HexValue(Hex(n, width, upper)) == n
    decreases width
  {
    if width > 0 {
      var s := Hex(n, width, upper);
      assert s[..|s| - 1] == Hex(n / 16, width - 1, upper);
      assert n / 16 < Pow16(width - 1);
      assert s[|s| - 1] == HexDigit(n % 16, upper);
      HexDigitRoundTrip(n % 16, upper);
      HexRoundTrip(n / 16, width - 1, upper);
      assert HexValue(s) == HexValue(Hex(n / 16, width - 1, upper)) * 16 + n % 16;
    }
  }

  /** Upper- and lower-case renderings of one value differ only in the letters. */
  lemma {:induction false} HexCaseOnly(n: nat, width: nat, i: nat)
    requires i < width
    ensures HexDigitValue(Hex(n, width, true)[i]) == HexDigitValue(Hex(n, width, false)[i])
    decreases width
  {
    if i < width - 1 {
      HexCaseOnly(n / 16, width - 1, i);
    }
  }

  /** `%-<width>s`: left-justified, padded with blanks, never truncated. */
  function PadRight(s: string, width: nat): (r: string)
    ensures |r| == if |s| < width then width else |s|
    ensures r[..|s|] == s
    ensures forall i :: |s| <= i < |r| ==> r[i] == ' '
    decreases width
  {
    if |s| >= width then s else PadRight(s, width - 1) + " "
  }
}
