/** The string primitives the bank scripts and the interface rely on:
    String.prototype.trim, the trailing-question-mark strip, the space put
    before every capital letter, ASCII upper-casing of one character, and
    the decimal rendering of a counter padded on the left with zeros. */
module Text {

  /** The characters String.prototype.trim removes: the ECMAScript
      WhiteSpace code points (tab, vertical tab, form feed, space, no-break
      space, the byte order mark and the Zs separators) and the
      LineTerminator code points (line feed, carriage return, line and
      paragraph separators). */
  predicate IsSpace(c: char)
  {
    var u := c as int;
    || 0x09 <= u <= 0x0D || u == 0x20 || u == 0xA0 || u == 0x1680
    || 0x2000 <= u <= 0x200A || u == 0x2028 || u == 0x2029 || u == 0x202F || u == 0x205F
    || u == 0x3000 || u == 0xFEFF
  }

  /** s without its leading white space. */
  function TrimStart(s: string): (r: string)
    ensures |r| <= |s| && r == s[|s| - |r|..]
    ensures forall i :: 0 <= i < |s| - |r| ==> IsSpace(s[i])
    ensures r != [] ==> !IsSpace(r[0])
  {
    if s == [] || !IsSpace(s[0]) then s else TrimStart(s[1..])
  }

  /** s without its trailing white space. */
  function TrimEnd(s: string): (r: string)
    ensures |r| <= |s| && r == s[..|r|]
    ensures forall i :: |r| <= i < |s| ==> IsSpace(s[i])
    ensures r != [] ==> !IsSpace(r[|r| - 1])
  {
    if s == [] || !IsSpace(s[|s| - 1]) then s else TrimEnd(s[..|s| - 1])
  }

  /** String.prototype.trim: the slice of s between its leading and its
      trailing white space. */
  function Trim(s: string): (r: string)
    ensures |r| <= |s|
    ensures r != [] ==> !IsSpace(r[0]) && !IsSpace(r[|r| - 1])
  {
    TrimEnd(TrimStart(s))
  }

  /** The trim is empty exactly when the string is all white space. */
  lemma {:induction false} TrimEmptyIffBlank(s: string)
    ensures Trim(s) == [] <==> forall i :: 0 <= i < |s| ==> IsSpace(s[i])
  {
    var t := TrimStart(s);
    if TrimEnd(t) == [] {
      assert t == [];
    }
  }

  /** Trimming removes white space only: the result sits inside s at some
      offset, with only white space before and after it. */
  lemma {:induction false} TrimIsSlice(s: string) returns (a: nat, b: nat)
    ensures a <= b <= |s| && Trim(s) == s[a..b]
    ensures forall i :: 0 <= i < a ==> IsSpace(s[i])
    ensures forall i :: b <= i < |s| ==> IsSpace(s[i])
  {
    var t := TrimStart(s);
    var r := TrimEnd(t);
    a := |s| - |t|;
    b := a + |r|;
    assert Trim(s) == r;
    SliceOfSuffix(s, t, a, |r|);
    TrimEndTail(s, t, a, |r|);
  }

  lemma {:induction false} SliceOfSuffix(s: string, t: string, a: nat, n: nat)
    requires a + n <= |s| && t == s[a..]
    ensures t[..n] == s[a..a + n]
  {
  }

  lemma {:induction false} TrimEndTail(s: string, t: string, a: nat, n: nat)
    requires a + n <= |s| && t == s[a..]
    requires forall i :: n <= i < |t| ==> IsSpace(t[i])
    ensures forall i :: a + n <= i < |s| ==> IsSpace(s[i])
  {
    forall i | a + n <= i < |s| ensures IsSpace(s[i]) {
      assert s[i] == t[i - a];
    }
  }

  /** A string with no white space at either end is its own trim. */
  lemma {:induction false} TrimOfTrimmed(s: string)
    requires s != [] ==> !IsSpace(s[0]) && !IsSpace(s[|s| - 1])
    ensures Trim(s) == s
  {
  }

  /** prompt.replace(/\?+$/, ''): the maximal run of '?' at the end of s is removed. */
  function StripTrailingQuestionMarks(s: string): (r: string)
    ensures |r| <= |s| && r == s[..|r|]
    ensures forall i :: |r| <= i < |s| ==> s[i] == '?'
    ensures r != [] ==> r[|r| - 1] != '?'
  {
    if s == [] || s[|s| - 1] != '?' then s else StripTrailingQuestionMarks(s[..|s| - 1])
  }

  /** The strip removes at most the question marks: a stripped prompt with one
      '?' put back ends in exactly one '?'. */
  lemma {:induction false} OneQuestionMark(s: string)
    ensures var t := StripTrailingQuestionMarks(s) + "?";
      t[|t| - 1] == '?' && (|t| >= 2 ==> t[|t| - 2] != '?')
  {
  }

  predicate IsUpper(c: char)
  {
    'A' <= c <= 'Z'
  }

  /** s.replace(/([A-Z])/g, ' $1'): a space before every capital letter. */
  function SpaceBeforeCapitals(s: string): (r: string)
    ensures |r| == |s| + Capitals(s)
  {
    if s == [] then []
    else (if IsUpper(s[0]) then [' ', s[0]] else [s[0]]) + SpaceBeforeCapitals(s[1..])
  }

  /** How many capital letters s holds. */
  function Capitals(s: string): nat
  {
    if s == [] then 0 else (if IsUpper(s[0]) then 1 else 0) + Capitals(s[1..])
  }

  /** s with every space removed. */
  function WithoutSpaces(s: string): (r: string)
    ensures |r| <= |s|
    ensures forall i :: 0 <= i < |r| ==> r[i] != ' '
  {
    if s == [] then [] else (if s[0] == ' ' then [] else [s[0]]) + WithoutSpaces(s[1..])
  }

  lemma {:induction false} WithoutSpacesConcat(a: string, b: string)
    ensures WithoutSpaces(a + b) == WithoutSpaces(a) + WithoutSpaces(b)
  {
    if a != [] {
      assert (a + b)[0] == a[0];
      assert (a + b)[1..] == a[1..] + b;
      WithoutSpacesConcat(a[1..], b);
      var h := if a[0] == ' ' then [] else [a[0]];
      assert WithoutSpaces(a + b) == h + (WithoutSpaces(a[1..]) + WithoutSpaces(b));
      assert WithoutSpaces(a) == h + WithoutSpaces(a[1..]);
    } else {
      assert a + b == b;
    }
  }

  /** The inserted spaces are the only change: removing every space gives back
      a string that had none. */
  lemma {:induction false} SpaceBeforeCapitalsInverse(s: string)
    requires forall i :: 0 <= i < |s| ==> s[i] != ' '
    ensures WithoutSpaces(SpaceBeforeCapitals(s)) == s
  {
    if s != [] {
      var head := if IsUpper(s[0]) then [' ', s[0]] else [s[0]];
      var tail := s[1..];
      assert SpaceBeforeCapitals(s) == head + SpaceBeforeCapitals(tail);
      assert forall i :: 0 <= i < |tail| ==> tail[i] == s[i + 1];
      SpaceBeforeCapitalsInverse(tail);
      WithoutSpacesConcat(head, SpaceBeforeCapitals(tail));
      HeadWithoutSpaces(s[0], head);
      assert s == [s[0]] + tail;
    }
  }

  lemma {:induction false} HeadWithoutSpaces(c: char, head: string)
    requires c != ' ' && head == if IsUpper(c) then [' ', c] else [c]
    ensures WithoutSpaces(head) == [c]
  {
    assert WithoutSpaces([c]) == [c] + WithoutSpaces([]);
    if IsUpper(c) {
      assert head[1..] == [c];
    }
  }

  /** After the spaces go in, every capital letter of the result is preceded by a space. */
  lemma {:induction false} SpaceBeforeEveryCapital(s: string)
    ensures var r := SpaceBeforeCapitals(s);
      forall i :: 0 <= i < |r| && IsUpper(r[i]) ==> 0 < i && r[i - 1] == ' '
  {
    forall i | 0 <= i < |SpaceBeforeCapitals(s)| && IsUpper(SpaceBeforeCapitals(s)[i])
      ensures 0 < i && SpaceBeforeCapitals(s)[i - 1] == ' '
    {
      SpaceBeforeCapital(s, i);
    }
  }

  lemma {:induction false} SpaceBeforeCapital(s: string, i: nat)
    requires i < |SpaceBeforeCapitals(s)| && IsUpper(SpaceBeforeCapitals(s)[i])
    ensures 0 < i && SpaceBeforeCapitals(s)[i - 1] == ' '
  {
    var head := if IsUpper(s[0]) then [' ', s[0]] else [s[0]];
    var r := SpaceBeforeCapitals(s);
    var tail := SpaceBeforeCapitals(s[1..]);
    assert r == head + tail;
    if i >= |head| {
      var k := i - |head|;
      assert r[i] == tail[k];
      SpaceBeforeCapital(s[1..], k);
      assert r[i - 1] == tail[k - 1];
    } else if IsUpper(s[0]) {
      assert r[0] == ' ' && r[1] == s[0];
    }
  }

  /** String.prototype.toUpperCase on one ASCII letter; other characters are kept. */
  function UpperAscii(c: char): (u: char)
    ensures 'a' <= c <= 'z' ==> IsUpper(u) && u as int - c as int == 'A' as int - 'a' as int
    ensures !('a' <= c <= 'z') ==> u == c
  {
    if 'a' <= c <= 'z' then (c as int - 'a' as int + 'A' as int) as char else c
  }

  function DigitChar(d: nat): (c: char)
    requires d < 10
    ensures '0' <= c <= '9'
  {
    ('0' as int + d) as char
  }

  /** String(n): the decimal digits of n, most significant first, without leading zeros. */
  function Digits(n: nat): (s: string)
    ensures |s| >= 1
    ensures forall i :: 0 <= i < |s| ==> '0' <= s[i] <= '9'
    ensures IsDigitString(s)
    ensures n > 0 ==> s[0] != '0'
  {
    if n < 10 then [DigitChar(n)] else Digits(n / 10) + [DigitChar(n % 10)]
  }

  predicate IsDigitString(s: string)
  {
    forall i :: 0 <= i < |s| ==> '0' <= s[i] <= '9'
  }

  /** The number a string of decimal digits denotes. */
  function DecimalValue(s: string): nat
    requires IsDigitString(s)
  {
    if s == [] then 0 else DecimalValue(s[..|s| - 1]) * 10 + (s[|s| - 1] as int - '0' as int)
  }

  /** Reading the digits back gives the number. */
  lemma {:induction false} DigitsRoundTrip(n: nat)
    ensures DecimalValue(Digits(n)) == n
  {
    if n >= 10 {
      var s := Digits(n);
      assert s[..|s| - 1] == Digits(n / 10);
      DigitsRoundTrip(n / 10);
    }
  }

  /** padStart(width, pad): s with copies of pad put in front until it is width long. */
  function PadStart(s: string, width: nat, pad: char): (r: string)
    ensures |r| == if |s| >= width then |s| else width
    ensures r[|r| - |s|..] == s
    ensures forall i :: 0 <= i < |r| - |s| ==> r[i] == pad
  {
    if |s| >= width then s else seq(width - |s|, _ => pad) + s
  }

  /** The padded string is the padding followed by s. */
  lemma {:induction false} PadSplit(s: string, width: nat, pad: char) returns (z: string)
    ensures PadStart(s, width, pad) == z + s
    ensures forall i :: 0 <= i < |z| ==> z[i] == pad
  {
    var p := PadStart(s, width, pad);
    z := p[..|p| - |s|];
    assert p == z + p[|p| - |s|..];
  }

  /** Leading zeros do not change the value a digit string denotes. */
  lemma {:induction false} LeadingZerosIgnored(z: string, s: string)
    requires forall i :: 0 <= i < |z| ==> z[i] == '0'
    requires IsDigitString(s)
    ensures IsDigitString(z + s) && DecimalValue(z + s) == DecimalValue(s)
    decreases |s|
  {
    if s == [] {
      assert z + s == z;
      AllZeros(z);
    } else {
      var init := s[..|s| - 1];
      assert (z + s)[..|z + s| - 1] == z + init;
      LeadingZerosIgnored(z, init);
    }
  }

  lemma {:induction false} AllZeros(z: string)
    requires forall i :: 0 <= i < |z| ==> z[i] == '0'
    ensures DecimalValue(z) == 0
  {
    if z != [] {
      AllZeros(z[..|z| - 1]);
    }
  }

  /** The zero-padded counter reads back as the counter, whatever the width. */
  lemma {:induction false} PaddedDigitsRoundTrip(n: nat, width: nat)
    ensures IsDigitString(PadStart(Digits(n), width, '0'))
    ensures DecimalValue(PadStart(Digits(n), width, '0')) == n
  {
    var d := Digits(n);
    DigitsRoundTrip(n);
    var z := PadSplit(d, width, '0');
    LeadingZerosIgnored(z, d);
  }

  /** So different counters give different padded strings. */
  lemma {:induction false} PaddedDigitsInjective(m: nat, n: nat, width: nat)
    requires PadStart(Digits(m), width, '0') == PadStart(Digits(n), width, '0')
    ensures m == n
  {
    PaddedDigitsRoundTrip(m, width);
    PaddedDigitsRoundTrip(n, width);
  }
}
