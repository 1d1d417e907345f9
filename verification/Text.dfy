/** Decimal rendering and splitting of text. */
module Text {

  const NEWLINE := '\n'

  predicate IsDigit(c: char) { '0' <= c <= '9' }

  /** Unicode White_Space. */
  predicate IsWhitespace(c: char) {
    var n := c as int;
    || 9 <= n <= 13 || n == 0x20 || n == 0x85 || n == 0xA0 || n == 0x1680 || 0x2000 <= n <= 0x200A
    || n == 0x2028 || n == 0x2029 || n == 0x202F || n == 0x205F || n == 0x3000
  }

  function Digit(d: nat): (c: char)
    requires d < 10
    ensures IsDigit(c)
  {
    ('0' as int + d) as char
  }

  /** Decimal digits of a natural number. */
  function Digits(n: nat): (s: string)
    ensures |s| >= 1
    ensures forall i :: 0 <= i < |s| ==> IsDigit(s[i])
  {
    if n < 10 then [Digit(n)] else Digits(n / 10) + [Digit(n % 10)]
  }

  function Decimal(n: int): string { if n < 0 then "-" + Digits(-n) else Digits(n) }

  /** The number a numeral stands for, its last digit the least. */
  function Value(s: string): nat
    requires forall i :: 0 <= i < |s| ==> IsDigit(s[i])
  {
    if s == "" then 0
    else
      assert IsDigit(s[|s| - 1]);
      10 * Value(s[..|s| - 1]) + (s[|s| - 1] as int - '0' as int)
  }

  /** A rendered number reads back as itself and has no leading zero. */
  lemma {:induction false} DigitsValue(n: nat)
    ensures Value(Digits(n)) == n && (n > 0 ==> Digits(n)[0] != '0') && (n == 0 ==> Digits(n) == "0")
  {
    var s := Digits(n);
    if n < 10 {
      assert s[..|s| - 1] == "";
    } else {
      DigitsValue(n / 10);
      assert s[..|s| - 1] == Digits(n / 10);
    }
  }

  lemma {:induction false} DigitsMonotone(a: nat, b: nat)
    requires a <= b
    ensures |Digits(a)| <= |Digits(b)|
    decreases b
  {
    if a >= 10 {
      DigitsMonotone(a / 10, b / 10);
    }
  }

  /** Counting up by k adds at most k decimal digits. */
  lemma {:induction false} DigitsGrowSlowly(a: nat, k: nat)
    ensures |Digits(a + k)| <= |Digits(a)| + k
    decreases k
  {
    if k > 0 {
      DigitsGrowSlowly(a, k - 1);
      DigitsSucc(a + k - 1);
    }
  }

  lemma {:induction false} DigitsSucc(a: nat)
    ensures |Digits(a + 1)| <= |Digits(a)| + 1
    decreases a
  {
    if a >= 10 {
      if (a + 1) / 10 == a / 10 {
      } else {
        assert (a + 1) / 10 == a / 10 + 1;
        DigitsSucc(a / 10);
      }
    }
  }

  function Spaces(n: nat): (s: string)
    ensures |s| == n
  {
    if n == 0 then "" else " " + Spaces(n - 1)
  }

  /** Right alignment in a field of `width` characters. */
  function PadLeft(s: string, width: nat): string {
    if |s| >= width then s else Spaces(width - |s|) + s
  }

  function TrimStart(s: string): string {
    if s != [] && IsWhitespace(s[0]) then TrimStart(s[1..]) else s
  }

  /** Length of the leading run of ASCII digits. */
  function DigitRun(s: string): (n: nat)
    ensures n <= |s|
    ensures forall i :: 0 <= i < n ==> IsDigit(s[i])
    ensures n < |s| ==> !IsDigit(s[n])
  {
    if s != [] && IsDigit(s[0]) then 1 + DigitRun(s[1..]) else 0
  }

  lemma TrimBlank(s: string)
    ensures TrimStart(" " + s) == TrimStart(s)
  {
    var t := " " + s;
    assert t[0] == ' ';
    assert t[1..] == s;
  }

  lemma {:induction false} TrimSpaces(n: nat, s: string)
    requires s == [] || !IsWhitespace(s[0])
    ensures TrimStart(Spaces(n) + s) == s
  {
    if n == 0 {
      assert Spaces(0) + s == s;
    } else {
      SpacesStep(n, s);
      hide TrimStart, Spaces, IsWhitespace;
      TrimSpaces(n - 1, s);
      TrimBlank(Spaces(n - 1) + s);
    }
  }

  lemma SpacesStep(n: nat, s: string)
    requires n > 0
    ensures Spaces(n) + s == " " + (Spaces(n - 1) + s)
  {
  }

  lemma DigitRunIs(s: string, n: nat)
    requires n < |s| && !IsDigit(s[n])
    requires forall i :: 0 <= i < n ==> IsDigit(s[i])
    ensures DigitRun(s) == n
  {
  }

  // ----- Lines -----

  function Join(lines: seq<string>): string { JoinWith(lines, [NEWLINE]) }

  function JoinWith(parts: seq<string>, separator: string): string {
    if parts == [] then ""
    else if |parts| == 1 then parts[0]
    else parts[0] + separator + JoinWith(parts[1..], separator)
  }

  function Split(s: string): (lines: seq<string>)
    ensures |lines| >= 1
  {
    if s == "" then [""]
    else if s[0] == NEWLINE then [""] + Split(s[1..])
    else var rest := Split(s[1..]); [[s[0]] + rest[0]] + rest[1..]
  }

  predicate OneLine(s: string) { NEWLINE !in s }

  /** Splitting undoes joining, so a content string and its sequence of lines are the same thing. */
  lemma {:induction false} SplitJoin(lines: seq<string>)
    requires lines != []
    requires forall i :: 0 <= i < |lines| ==> OneLine(lines[i])
    ensures Split(Join(lines)) == lines
  {
    if |lines| == 1 {
      SplitOne(lines[0]);
    } else {
      SplitJoin(lines[1..]);
      SplitPrefix(lines[0], Join(lines[1..]));
    }
  }

  lemma {:induction false} SplitOne(s: string)
    requires OneLine(s)
    ensures Split(s) == [s]
  {
    if s != "" {
      SplitOne(s[1..]);
      assert s[0] != NEWLINE;
      assert [s[0]] + s[1..] == s;
    }
  }

  lemma {:induction false} SplitPrefix(a: string, rest: string)
    requires OneLine(a)
    ensures Split(a + [NEWLINE] + rest) == [a] + Split(rest)
  {
    var s := a + [NEWLINE] + rest;
    if a == "" {
      assert s == [NEWLINE] + rest && s[1..] == rest;
    } else {
      SplitPrefix(a[1..], rest);
      assert a[0] != NEWLINE;
      assert s[1..] == a[1..] + [NEWLINE] + rest;
      assert [s[0]] + a[1..] == a;
    }
  }

  lemma JoinCons(line: string, rest: seq<string>)
    requires rest != []
    ensures Join([line] + rest) == line + [NEWLINE] + Join(rest)
  {
    assert ([line] + rest)[1..] == rest;
  }

  /** One more character in front of the first line is one more in front of the content. */
  lemma JoinFirst(c: char, lines: seq<string>)
    requires lines != []
    ensures Join([[c] + lines[0]] + lines[1..]) == [c] + Join(lines)
  {
    if |lines| == 1 {
      assert [[c] + lines[0]] + lines[1..] == [[c] + lines[0]];
    } else {
      JoinCons([c] + lines[0], lines[1..]);
      JoinCons(lines[0], lines[1..]);
      assert lines == [lines[0]] + lines[1..];
    }
  }

  /** Joining undoes splitting. */
  lemma {:induction false} JoinSplit(s: string)
    ensures Join(Split(s)) == s
    ensures forall i :: 0 <= i < |Split(s)| ==> OneLine(Split(s)[i])
  {
    if s != "" {
      JoinSplit(s[1..]);
      var rest := Split(s[1..]);
      assert [s[0]] + s[1..] == s;
      if s[0] == NEWLINE {
        assert Split(s) == [""] + rest;
        hide Split, Join;
        JoinCons("", rest);
      } else {
        assert Split(s) == [[s[0]] + rest[0]] + rest[1..];
        hide Split, Join;
        JoinFirst(s[0], rest);
      }
    }
  }
}
