/** Function names: "func_" and eight upper-case hexadecimal digits. */
module Names {
  import opened Mips

  function Digit(d: int): char
    requires 0 <= d < 16
  {
    if d < 10 then '0' + d as char else 'A' + (d - 10) as char
  }

  /** The value of a hexadecimal digit as strtoul reads it. */
  function DigitValue(c: char): (d: int)
    ensures -1 <= d < 16
  {
    if '0' <= c <= '9' then c as int - '0' as int
    else if 'A' <= c <= 'F' then c as int - 'A' as int + 10
    else if 'a' <= c <= 'f' then c as int - 'a' as int + 10
    else -1
  }

  /** The digits of both cases, what counts as a space, and nothing else. */
  lemma DigitsAre(i: nat)
    requires i < 16
    ensures DigitValue("0123456789ABCDEF"[i]) == i == DigitValue("0123456789abcdef"[i])
    ensures Digit(i) == "0123456789ABCDEF"[i]
  {
  }

  lemma OnlyDigits(c: char)
    requires DigitValue(c) >= 0
    ensures c in "0123456789ABCDEFabcdef"
  {
    var all := "0123456789ABCDEFabcdef";
    var d := DigitValue(c);
    assert all[d] == c || (d >= 10 && all[d + 6] == c);
  }

  lemma SpacesAre(c: char)
    ensures IsSpace(c) <==> c in [' ', '\t', '\n', 11 as char, 12 as char, '\r']
  {
  }

  /** The low n hexadecimal digits of a. */
  function Hex(a: nat, n: nat): string
    decreases n, a
  {
    if n == 0 then "" else Hex(a / 16, n - 1) + [Digit(a % 16)]
  }

  function NameOf(a: Word): string {
    "func_" + Hex(a, 8)
  }

  /** Whether s consists of hexadecimal digits only. */
  predicate AllHex(s: string) {
    s == "" || (AllHex(s[..|s| - 1]) && DigitValue(s[|s| - 1]) >= 0)
  }

  /** The value of the longest prefix of hexadecimal digits. */
  function Value(s: string): nat {
    if s == "" then 0
    else
      var d := DigitValue(s[|s| - 1]);
      var front := s[..|s| - 1];
      if AllHex(front) && d >= 0 then 16 * Value(front) + d else Value(front)
  }

  predicate IsSpace(c: char) {
    c == ' ' || 9 <= c as int <= 13
  }

  function SkipSpaces(s: string): string {
    if s != "" && IsSpace(s[0]) then SkipSpaces(s[1..]) else s
  }

  function SkipSign(s: string): string {
    if s != "" && (s[0] == '-' || s[0] == '+') then s[1..] else s
  }

  function SkipPrefix(s: string): string {
    if |s| > 2 && s[0] == '0' && (s[1] == 'x' || s[1] == 'X') && DigitValue(s[2]) >= 0 then s[2..] else s
  }

  /** The largest unsigned long of the platform, which has 32 bits. */
  const ULONG_MAX := 0xFFFF_FFFF

  /** strtoul saturates, and negates what does not. */
  function Cut(negative: bool, v: nat): Word {
    if v > ULONG_MAX then ULONG_MAX else if negative then Wrap(0x1_0000_0000 - v) else v
  }

  /** A negated number is what makes zero of the number, modulo 2^32. */
  lemma CutIs(v: nat)
    ensures v < 0x1_0000_0000 ==> Cut(false, v) == v && (Cut(true, v) + v) % 0x1_0000_0000 == 0
    ensures v >= 0x1_0000_0000 ==> Cut(false, v) == Cut(true, v) == 0xFFFF_FFFF
  {
  }

  /** strtoul with base 16. */
  function Strtoul(s: string): Word {
    var t := SkipSpaces(s);
    Cut(t != "" && t[0] == '-', Value(SkipPrefix(SkipSign(t))))
  }

  method ParseHex(s: string) returns (v: Word)
    ensures v == Strtoul(s)
  {
    var i := 0;
    while i < |s| && IsSpace(s[i])
      invariant i <= |s| && SkipSpaces(s) == SkipSpaces(s[i..])
    {
      i := i + 1;
    }
    ghost var j := i;
    var negative := i < |s| && s[i] == '-';
    if i < |s| && (s[i] == '-' || s[i] == '+') {
      i := i + 1;
    }
    ghost var k := i;
    if i + 2 < |s| && s[i] == '0' && (s[i + 1] == 'x' || s[i + 1] == 'X') && DigitValue(s[i + 2]) >= 0 {
      i := i + 2;
    }
    Skipped(s, s[j..], s[k..], s[i..]);
    var n := ParseDigits(s[i..]);
    v := Cut(negative, n);
  }

  lemma Skipped(s: string, t: string, u: string, v: string)
    requires t == SkipSpaces(s) && u == SkipSign(t) && v == SkipPrefix(u)
    ensures v == SkipPrefix(SkipSign(SkipSpaces(s)))
  {
  }

  method ParseDigits(s: string) returns (v: nat)
    ensures v == Value(s)
  {
    v := 0;
    var i := 0;
    while i < |s| && DigitValue(s[i]) >= 0
      invariant i <= |s| && v == Value(s[..i]) && AllHex(s[..i])
    {
      assert s[..i + 1][..i] == s[..i];
      v := 16 * v + DigitValue(s[i]);
      i := i + 1;
    }
    Ignored(s, i);
  }

  /** Nothing after the first character that is no digit is read. */
  lemma {:induction false} Ignored(s: string, i: nat)
    requires i <= |s| && AllHex(s[..i]) && (i < |s| ==> DigitValue(s[i]) < 0)
    ensures Value(s) == Value(s[..i])
    ensures i < |s| ==> !AllHex(s)
    decreases |s|
  {
    if i < |s| {
      var front := s[..|s| - 1];
      assert front[..i] == s[..i];
      if i < |front| {
        Ignored(front, i);
      } else {
        assert front == s[..i];
      }
    } else {
      assert s[..i] == s;
    }
  }

  function Pow16(n: nat): nat {
    if n == 0 then 1 else 16 * Pow16(n - 1)
  }

  lemma DigitRoundTrip(d: int)
    requires 0 <= d < 16
    ensures DigitValue(Digit(d)) == d
  {
  }

  lemma {:induction false} HexRoundTrip(a: nat, n: nat)
    requires a < Pow16(n)
    ensures |Hex(a, n)| == n && AllHex(Hex(a, n)) && Value(Hex(a, n)) == a
  {
    if n > 0 {
      HexRoundTrip(a / 16, n - 1);
      DigitRoundTrip(a % 16);
      assert Hex(a, n)[..n - 1] == Hex(a / 16, n - 1);
    }
  }

  lemma {:induction false} HexAt(s: string, i: nat)
    requires AllHex(s) && i < |s|
    ensures DigitValue(s[i]) >= 0
    decreases |s|
  {
    if i < |s| - 1 {
      HexAt(s[..|s| - 1], i);
    }
  }

  /** Digits are read from the first one on. */
  lemma NothingSkipped(s: string)
    requires AllHex(s)
    ensures SkipPrefix(SkipSign(SkipSpaces(s))) == s && Strtoul(s) == Cut(false, Value(s))
  {
    if s != "" {
      HexAt(s, 0);
    }
    if |s| > 1 {
      HexAt(s, 1);
    }
  }

  lemma EightDigits(a: Word)
    ensures |Hex(a, 8)| == 8 && AllHex(Hex(a, 8)) && Value(Hex(a, 8)) == a
  {
    assert Pow16(8) == 0x1_0000_0000 by {
      assert Pow16(4) == 0x1_0000;
      assert Pow16(6) == 0x100_0000;
    }
    HexRoundTrip(a, 8);
  }

  lemma NameDigits(a: Word, digits: string)
    requires digits == Hex(a, 8)
    ensures |NameOf(a)| == 5 + |digits| && NameOf(a)[5..] == digits
  {
  }

  lemma DigitsRead(s: string, digits: string, a: Word)
    requires s == digits && AllHex(digits) && Value(digits) == a
    ensures Strtoul(s) == a
  {
    NothingSkipped(digits);
  }

  /** The address in a function's name is read back as it was written. */
  lemma NameRoundTrip(a: Word)
    ensures |NameOf(a)| == 13 && Strtoul(NameOf(a)[5..]) == a
  {
    EightDigits(a);
    NameDigits(a, Hex(a, 8));
    DigitsRead(NameOf(a)[5..], Hex(a, 8), a);
  }

  lemma NamesDiffer(a: Word, b: Word)
    ensures NameOf(a) == NameOf(b) <==> a == b
  {
    NameRoundTrip(a);
    NameRoundTrip(b);
  }
}
