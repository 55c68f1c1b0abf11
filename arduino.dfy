/** The Arduino `String` operations the firmware uses (ESP32 core
    semantics). A String is a byte string; every char of the model stands for
    one byte (its code is below 256 wherever the firmware builds one). */
module ArduinoString {
  import opened Text

  const U32: int := 0x1_0000_0000

  /** Lengths of device strings: an Arduino String lives in a few hundred
      kilobytes of heap, so every length and index fits in an `int`. */
  predicate Fits(s: string)
  {
    |s| < U32 / 2
  }

  /** String::indexOf(String, fromIndex): -1 when fromIndex is past the end or
      when there is no occurrence at or after fromIndex. */
  function IndexOf(s: string, pat: string, from: nat): (r: int)
    ensures r == -1 || (from <= r && OccursAt(s, pat, r))
    ensures r >= 0 ==> forall j :: from <= j < r ==> !OccursAt(s, pat, j)
    ensures r == -1 && from < |s| ==> forall j :: from <= j ==> !OccursAt(s, pat, j)
  {
    if from >= |s| then -1 else Find(s, pat, from)
  }

  function Find(s: string, pat: string, j: nat): (r: int)
    ensures r == -1 || (j <= r && OccursAt(s, pat, r))
    ensures r >= 0 ==> forall k :: j <= k < r ==> !OccursAt(s, pat, k)
    ensures r == -1 ==> forall k :: j <= k ==> !OccursAt(s, pat, k)
    decreases |s| - j
  {
    if j + |pat| > |s| then -1
    else if s[j..j + |pat|] == pat then j
    else Find(s, pat, j + 1)
  }

  /** String::indexOf(char, fromIndex) */
  function IndexOfChar(s: string, c: char, from: nat): (r: int)
    ensures r == -1 || (from <= r < |s| && s[r] == c)
    ensures r >= 0 ==> forall j :: from <= j < r ==> s[j] != c
    ensures r == -1 ==> forall j :: from <= j < |s| ==> s[j] != c
    decreases |s| - from
  {
    if from >= |s| then -1 else if s[from] == c then from else IndexOfChar(s, c, from + 1)
  }

  /** Searching for a one-character String finds what searching for that
      character finds. */
  lemma {:induction false} IndexOfOneChar(s: string, c: char, from: nat)
    ensures IndexOf(s, [c], from) == IndexOfChar(s, c, from)
    decreases |s| - from
  {
    if from < |s| {
      assert OccursAt(s, [c], from) <==> s[from] == c by {
        assert s[from..from + 1] == [s[from]];
      }
      if s[from] != c {
        IndexOfOneChar(s, c, from + 1);
      }
    }
  }

  /** Searching from the start finds an occurrence exactly when there is
      one (for a non-empty pattern). */
  lemma IndexOfFindsContained(s: string, pat: string)
    requires pat != []
    ensures IndexOf(s, pat, 0) != -1 <==> Contains(s, pat)
  {
    var r := IndexOf(s, pat, 0);
    if r != -1 {
      ContainsWitness(s, pat, r);
    }
  }

  /** Searching a character from the start gives its first index. */
  lemma IndexOfCharFirst(s: string, c: char)
    ensures IndexOfChar(s, c, 0) == if c in s then FirstIndexOf(s, c) else -1
  {
    var r := IndexOfChar(s, c, 0);
    var k := FirstIndexOf(s, c);
    if c in s {
      var j :| 0 <= j < |s| && s[j] == c;
      assert k <= j;
    }
  }

  /** String::substring(left, right). The bounds are taken in order inside
      the string, and by the general rule otherwise. */
  function Substring(s: string, left: int, right: int): (r: string)
  {
    if 0 <= left <= right <= |s| < U32 then s[left..right] else GeneralSubstring(s, left, right)
  }

  /** The general rule of String::substring(left, right): the arguments are
      the firmware's int values, converted to unsigned int on the way in (so
      -1 becomes the largest unsigned value); the bounds are swapped when
      left > right, the result is empty when left is at or past the end, and
      right is clamped to the length. */
  function GeneralSubstring(s: string, left: int, right: int): (r: string)
    ensures Fits(s) && 0 <= right <= left <= |s| ==> r == s[right..left]
    ensures Fits(s) && 0 <= left <= |s| && (-U32 / 2 <= right < 0 || |s| < right < U32 / 2) ==> r == s[left..]
    ensures Fits(s) && |s| <= left < U32 / 2 && |s| <= right < U32 / 2 ==> r == ""
  {
    var l0 := UnsignedOf(left);
    var r0 := UnsignedOf(right);
    var l := if l0 > r0 then r0 else l0;
    var r := if l0 > r0 then l0 else r0;
    if l >= |s| then "" else s[l..if r > |s| then |s| else r]
  }

  /** Taking bounds in order inside the string directly is only a shortcut:
      the general rule gives the same text. */
  lemma GeneralSubstringInOrder(s: string, left: int, right: int)
    requires 0 <= left <= right <= |s| < U32
    ensures GeneralSubstring(s, left, right) == s[left..right]
  {
  }

  /** String::substring(left): from left to the end. */
  function SubstringFrom(s: string, left: nat): (r: string)
    ensures left <= |s| ==> r == s[left..]
    ensures left > |s| ==> r == ""
  {
    if left >= |s| then "" else s[left..]
  }

  /** String::charAt: NUL past the end. */
  function CharAt(s: string, i: nat): char
  {
    if i < |s| then s[i] else 0 as char
  }

  // --------------------------------------------------------- C library

  /** isspace() in the C locale */
  predicate CIsSpace(c: char)
  {
    c == ' ' || c == '\t' || c == '\n' || c == '\r' || c == '\U{B}' || c == '\U{C}'
  }

  function SkipCSpace(s: string): (r: string)
    ensures |r| <= |s| && r == s[|s| - |r|..]
    ensures r != [] ==> !CIsSpace(r[0])
    ensures forall i :: 0 <= i < |s| - |r| ==> CIsSpace(s[i])
  {
    if s != [] && CIsSpace(s[0]) then
      var r := SkipCSpace(s[1..]);
      assert forall i :: 1 <= i < |s| - |r| ==> s[i] == s[1..][i - 1];
      r
    else s
  }

  /** The longest prefix made of decimal digits. */
  function LeadingDigits(s: string): (r: string)
    ensures |r| <= |s| && AllDigits(r) && r == s[..|r|]
    ensures |r| < |s| ==> !IsDigit(s[|r|])
  {
    if s != [] && IsDigit(s[0]) then [s[0]] + LeadingDigits(s[1..]) else []
  }

  /** String::toInt(), that is atol(): leading white space, an optional sign,
      then as many decimal digits as there are; 0 when there are none. */
  function ToInt(s: string): (r: int)
    ensures (forall i :: 0 <= i < |s| ==> !IsDigit(s[i])) ==> r == 0
    decreases |s|
  {
    if s != [] && CIsSpace(s[0]) then ToInt(s[1..]) else SignedValue(s)
  }

  /** The part of atol() after the white space: a sign, then digits. */
  function SignedValue(t: string): int
  {
    if t != [] && (t[0] == '+' || t[0] == '-') then
      var v := DigitsValue(LeadingDigits(t[1..]));
      if t[0] == '-' then -(v as int) else v
    else
      DigitsValue(LeadingDigits(t))
  }

  lemma {:induction false} LeadingDigitsOfAllDigits(d: string, rest: string)
    requires AllDigits(d)
    requires rest == [] || !IsDigit(rest[0])
    ensures LeadingDigits(d + rest) == d
    decreases |d|
  {
    if d != [] {
      assert (d + rest)[1..] == d[1..] + rest;
      LeadingDigitsOfAllDigits(d[1..], rest);
    } else {
      assert d + rest == rest;
    }
  }

  lemma ToIntOfDigits(d: string, rest: string)
    requires d != [] && AllDigits(d)
    requires rest == [] || !IsDigit(rest[0])
    ensures ToInt(d + rest) == DigitsValue(d)
  {
    assert (d + rest)[0] == d[0];
    LeadingDigitsOfAllDigits(d, rest);
  }

  /** A minus sign in front of the digits negates their value. */
  lemma ToIntOfNegative(d: string, rest: string)
    requires AllDigits(d)
    requires rest == [] || !IsDigit(rest[0])
    ensures ToInt("-" + d + rest) == -(DigitsValue(d) as int)
  {
    var s := "-" + d + rest;
    assert s[0] == '-' && !CIsSpace(s[0]);
    assert s[1..] == d + rest;
    LeadingDigitsOfAllDigits(d, rest);
  }

  /** toInt() reads back the decimal text of any number, whatever
      non-digit follows it. */
  lemma ToIntOfIntToString(n: int, rest: string)
    requires rest == [] || !IsDigit(rest[0])
    ensures ToInt(IntToString(n) + rest) == n
  {
    if n < 0 {
      ToIntOfNegative(NatToString(-n), rest);
      NatToStringValue(-n);
    } else {
      ToIntOfDigits(NatToString(n), rest);
      NatToStringValue(n);
    }
  }

  /** String::trim(): C white space removed at both ends. */
  function Trim(s: string): (r: string)
    ensures |r| <= |s|
    ensures r != [] ==> !CIsSpace(r[0]) && !CIsSpace(r[|r| - 1])
  {
    var t := SkipCSpace(s);
    TrimRight(t)
  }

  function TrimRight(s: string): (r: string)
    ensures |r| <= |s| && r == s[..|r|]
    ensures r != [] ==> !CIsSpace(r[|r| - 1])
    ensures s != [] && !CIsSpace(s[0]) ==> r != [] && r[0] == s[0]
    ensures forall i :: |r| <= i < |s| ==> CIsSpace(s[i])
  {
    if s != [] && CIsSpace(s[|s| - 1]) then TrimRight(s[..|s| - 1]) else s
  }

  /** What String::trim() leaves is the string without the white space
      around it: it stands in the string with only white space before and
      after it, and neither of its ends is white space. */
  lemma TrimPadding(s: string)
    ensures Unpadded(Trim(s), CIsSpace)
    ensures exists i :: PaddedAt(s, Trim(s), i, CIsSpace)
  {
    var l := SkipCSpace(s);
    PaddedBetween(s, l, TrimRight(l), CIsSpace);
  }

  /** Any unpadded text that stands in s with only white space around it is
      what String::trim() leaves. */
  lemma TrimIsTheCore(s: string, t: string, j: int)
    requires PaddedAt(s, t, j, CIsSpace) && Unpadded(t, CIsSpace)
    ensures Trim(s) == t
  {
    TrimPadding(s);
    var i :| PaddedAt(s, Trim(s), i, CIsSpace);
    PaddedUnique(s, Trim(s), i, t, j, CIsSpace);
  }

  predicate IsHexDigit(c: char)
  {
    ('0' <= c <= '9') || ('a' <= c <= 'f') || ('A' <= c <= 'F')
  }

  function HexValue(c: char): (v: nat)
    requires IsHexDigit(c)
    ensures v < 16
  {
    if '0' <= c <= '9' then c as int - '0' as int
    else if 'a' <= c <= 'f' then c as int - 'a' as int + 10
    else c as int - 'A' as int + 10
  }

  function LeadingHex(s: string): (r: string)
    ensures |r| <= |s| && r == s[..|r|]
    ensures forall i :: 0 <= i < |r| ==> IsHexDigit(r[i])
  {
    if s != [] && IsHexDigit(s[0]) then [s[0]] + LeadingHex(s[1..]) else []
  }

  function HexDigitsValue(s: string): nat
    requires forall i :: 0 <= i < |s| ==> IsHexDigit(s[i])
  {
    if s == [] then 0 else 16 * HexDigitsValue(s[..|s| - 1]) + HexValue(s[|s| - 1])
  }

  /** strtol(s, NULL, 16): white space, an optional sign, an optional 0x/0X
      prefix, then hex digits. The firmware only hands it four characters, so
      the long never overflows. */
  function Strtol16(s: string): int
  {
    var t := SkipCSpace(s);
    var neg := t != [] && t[0] == '-';
    var u := if t != [] && (t[0] == '+' || t[0] == '-') then t[1..] else t;
    var w := if |u| >= 3 && u[0] == '0' && (u[1] == 'x' || u[1] == 'X') && IsHexDigit(u[2])
             then u[2..] else u;
    var v := HexDigitsValue(LeadingHex(w));
    if neg then -(v as int) else v
  }

  lemma {:induction false} LeadingHexOfAllHex(s: string)
    requires forall i :: 0 <= i < |s| ==> IsHexDigit(s[i])
    ensures LeadingHex(s) == s
    decreases |s|
  {
    if s != [] {
      LeadingHexOfAllHex(s[1..]);
    }
  }

  /** The conversion `(unsigned int)` of a long: the value modulo 2^32,
      taken one wrap at a time. */
  function UnsignedOf(x: int): (r: nat)
    ensures r < U32
    ensures 0 <= x < U32 ==> r == x
    ensures -U32 <= x < 0 ==> r == x + U32
    decreases if x < 0 then U32 - x else x
  {
    if x < 0 then UnsignedOf(x + U32)
    else if x >= U32 then UnsignedOf(x - U32)
    else x
  }
}
