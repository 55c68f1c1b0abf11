/** Python text primitives the server code relies on, restricted to what the
    core uses: lower-casing (of ASCII letters), str.strip, str.split with a
    one-character separator, str.replace of one character by nothing, int()
    of a string, and the clamping/negative-index rules of slicing. */
module Text {

  datatype Option<T> = None | Some(value: T)

  // ---------------------------------------------------------------- case

  predicate IsUpper(c: char) { 'A' <= c <= 'Z' }

  /** str.lower() on one character, for the ASCII letters; every other
      character is kept. */
  function LowerChar(c: char): (r: char)
    ensures IsUpper(c) ==> r as int == c as int + 32
    ensures !IsUpper(c) ==> r == c
    ensures !IsUpper(r)
  {
    if IsUpper(c) then (c as int + 32) as char else c
  }

  function Lower(s: string): (r: string)
    ensures |r| == |s|
    ensures forall i :: 0 <= i < |s| ==> r[i] == LowerChar(s[i])
  {
    seq(|s|, i requires 0 <= i < |s| => LowerChar(s[i]))
  }

  predicate NoUpper(s: string) { forall i :: 0 <= i < |s| ==> !IsUpper(s[i]) }

  lemma LowerHasNoUpper(s: string)
    ensures NoUpper(Lower(s))
  {
  }

  // ---------------------------------------------------------- substrings

  predicate OccursAt(s: string, sub: string, i: int)
  {
    0 <= i && i + |sub| <= |s| && s[i..i + |sub|] == sub
  }

  /** Python's `sub in s`. */
  predicate Contains(s: string, sub: string)
  {
    exists i :: 0 <= i <= |s| - |sub| && OccursAt(s, sub, i)
  }

  /** A substring that holds an upper-case letter never occurs in a text
      without one; this is why upper-case list entries are dead after
      lower-casing the input. */
  lemma {:induction false} UpperNeverInLower(s: string, sub: string)
    requires NoUpper(s)
    requires exists k :: 0 <= k < |sub| && IsUpper(sub[k])
    ensures !Contains(s, sub)
  {
    var k :| 0 <= k < |sub| && IsUpper(sub[k]);
    forall i | 0 <= i <= |s| - |sub|
      ensures !OccursAt(s, sub, i)
    {
      assert s[i..i + |sub|][k] == s[i + k];
    }
  }

  lemma ContainsWitness(s: string, sub: string, i: int)
    requires OccursAt(s, sub, i)
    ensures Contains(s, sub)
  {
  }

  /** Index of the first occurrence of c, or |s| when there is none. */
  function FirstIndexOf(s: string, c: char): (k: nat)
    ensures k <= |s|
    ensures k < |s| ==> s[k] == c
    ensures forall j :: 0 <= j < k ==> s[j] != c
  {
    if s == [] then 0 else if s[0] == c then 0 else 1 + FirstIndexOf(s[1..], c)
  }

  /** Index of the last occurrence of c, or -1 (str.rfind, and the Arduino
      String::lastIndexOf(char)). */
  function LastIndexOf(s: string, c: char): (k: int)
    ensures -1 <= k < |s|
    ensures k >= 0 ==> s[k] == c
    ensures forall j :: k < j < |s| ==> s[j] != c
  {
    if s == [] then -1
    else if s[|s| - 1] == c then |s| - 1
    else LastIndexOf(s[..|s| - 1], c)
  }

  // ------------------------------------------------------------- strip

  /** The characters for which Python's str.isspace() holds: the ASCII
      controls TAB to CR and FS to US, the space, NEL, NO-BREAK SPACE and the
      Unicode separators. */
  predicate IsSpace(c: char)
  {
    c == ' ' || ('\t' <= c <= '\r') || ('\U{1C}' <= c <= '\U{1F}') || c == '\U{85}' || c == '\U{A0}'
    || c == '\U{1680}' || ('\U{2000}' <= c <= '\U{200A}') || c == '\U{2028}' || c == '\U{2029}'
    || c == '\U{202F}' || c == '\U{205F}' || c == '\U{3000}'
  }

  /** `r` stands at index i of s, and every character of s outside it is
      white space by `space`. */
  predicate PaddedAt(s: string, r: string, i: int, space: char -> bool)
  {
    0 <= i && i + |r| <= |s| && s[i..i + |r|] == r
    && (forall k :: 0 <= k < i ==> space(s[k]))
    && (forall k :: i + |r| <= k < |s| ==> space(s[k]))
  }

  /** Neither end of r is white space by `space`. */
  predicate Unpadded(r: string, space: char -> bool)
  {
    r == [] || (!space(r[0]) && !space(r[|r| - 1]))
  }

  /** A text has at most one unpadded core: two unpadded texts that each
      stand in s with only white space around them are the same text. */
  lemma PaddedUnique(s: string, r: string, i: int, t: string, j: int, space: char -> bool)
    requires PaddedAt(s, r, i, space) && Unpadded(r, space)
    requires PaddedAt(s, t, j, space) && Unpadded(t, space)
    ensures r == t
  {
    if r != [] && t != [] {
      assert s[i] == r[0] && s[j] == t[0];
      assert i == j;
      assert s[i + |r| - 1] == r[|r| - 1] && s[j + |t| - 1] == t[|t| - 1];
      assert |r| == |t|;
    }
  }

  function StripLeft(s: string): (r: string)
    ensures |r| <= |s| && r == s[|s| - |r|..]
    ensures r != [] ==> !IsSpace(r[0])
    ensures forall i :: 0 <= i < |s| - |r| ==> IsSpace(s[i])
  {
    if s != [] && IsSpace(s[0]) then
      var r := StripLeft(s[1..]);
      assert forall i :: 1 <= i < |s| - |r| ==> s[i] == s[1..][i - 1];
      r
    else s
  }

  function StripRight(s: string): (r: string)
    ensures |r| <= |s| && r == s[..|r|]
    ensures r != [] ==> !IsSpace(r[|r| - 1])
    ensures forall i :: |r| <= i < |s| ==> IsSpace(s[i])
  {
    if s != [] && IsSpace(s[|s| - 1]) then StripRight(s[..|s| - 1]) else s
  }

  /** str.strip() with no argument. */
  function Strip(s: string): (r: string)
    ensures |r| <= |s|
    ensures r != [] ==> !IsSpace(r[0]) && !IsSpace(r[|r| - 1])
  {
    StripRight(StripLeft(s))
  }

  /** What str.strip() returns is s without the white space around it: it
      stands in s with only white space before and after it, and neither of
      its ends is white space. */
  lemma StripPadding(s: string)
    ensures Unpadded(Strip(s), IsSpace)
    ensures exists i :: PaddedAt(s, Strip(s), i, IsSpace)
  {
    var l := StripLeft(s);
    PaddedBetween(s, l, StripRight(l), IsSpace);
  }

  /** Dropping white space from the front of s and then from the back of
      what remains leaves a text that stands in s with only white space
      around it. */
  lemma PaddedBetween(s: string, l: string, r: string, space: char -> bool)
    requires |l| <= |s| && l == s[|s| - |l|..] && forall k :: 0 <= k < |s| - |l| ==> space(s[k])
    requires |r| <= |l| && r == l[..|r|] && forall k :: |r| <= k < |l| ==> space(l[k])
    ensures PaddedAt(s, r, |s| - |l|, space)
  {
    assert s[|s| - |l|..][..|r|] == s[|s| - |l|..|s| - |l| + |r|];
    assert forall k :: |s| - |l| + |r| <= k < |s| ==> s[k] == l[k - (|s| - |l|)];
  }

  /** Any unpadded text that stands in s with only white space around it is
      what str.strip() returns. */
  lemma StripIsTheCore(s: string, t: string, j: int)
    requires PaddedAt(s, t, j, IsSpace) && Unpadded(t, IsSpace)
    ensures Strip(s) == t
  {
    StripPadding(s);
    var i :| PaddedAt(s, Strip(s), i, IsSpace);
    PaddedUnique(s, Strip(s), i, t, j, IsSpace);
  }

  predicate NoSpace(s: string) { forall i :: 0 <= i < |s| ==> !IsSpace(s[i]) }

  lemma StripKeepsUnpadded(s: string)
    requires s == [] || (!IsSpace(s[0]) && !IsSpace(s[|s| - 1]))
    ensures Strip(s) == s
  {
  }

  /** Stripping a line that ends in a newline gives the stripped text. */
  lemma {:induction false} StripDropsNewline(s: string)
    requires s == [] || (!IsSpace(s[0]) && !IsSpace(s[|s| - 1]))
    ensures Strip(s + "\n") == s
  {
    var t := s + "\n";
    if s == [] {
      assert StripLeft(t) == [];
    } else {
      assert StripLeft(t) == t;
      assert t[..|t| - 1] == s;
      assert StripRight(t) == StripRight(s);
    }
  }

  // ------------------------------------------------------------- split

  /** str.split(sep) for a one-character separator. */
  function Split(s: string, sep: char): (r: seq<string>)
    ensures |r| >= 1
    ensures forall k :: 0 <= k < |r| ==> sep !in r[k]
    decreases |s|
  {
    var k := FirstIndexOf(s, sep);
    if k == |s| then [s] else [s[..k]] + Split(s[k + 1..], sep)
  }

  function Join(parts: seq<string>, sep: string): string
  {
    if parts == [] then "" else if |parts| == 1 then parts[0]
    else parts[0] + sep + Join(parts[1..], sep)
  }

  lemma {:induction false} SplitJoin(s: string, sep: char)
    ensures Join(Split(s, sep), [sep]) == s
    decreases |s|
  {
    var k := FirstIndexOf(s, sep);
    if k < |s| {
      var rest := s[k + 1..];
      var parts := Split(s, sep);
      assert parts[0] == s[..k] && parts[1..] == Split(rest, sep);
      assert Join(parts, [sep]) == s[..k] + [sep] + Join(Split(rest, sep), [sep]);
      SplitJoin(rest, sep);
      AroundIndex(s, k);
    }
  }

  /** A sequence is what comes before an index, the element there, and
      what follows. */
  lemma AroundIndex<T>(s: seq<T>, k: nat)
    requires k < |s|
    ensures s[..k] + [s[k]] + s[k + 1..] == s
  {
  }

  lemma {:induction false} FirstIndexOfConcat(a: string, b: string, c: char)
    ensures FirstIndexOf(a + b, c) == if FirstIndexOf(a, c) < |a| then FirstIndexOf(a, c) else |a| + FirstIndexOf(b, c)
    decreases |a|
  {
    if a == [] {
      assert a + b == b;
    } else if a[0] != c {
      assert (a + b)[1..] == a[1..] + b;
      FirstIndexOfConcat(a[1..], b, c);
    }
  }

  /** Splitting distributes over a separator: the parts of `a + sep + b` are
      the parts of a followed by the parts of b. */
  lemma {:induction false} SplitConcat(a: string, b: string, sep: char)
    ensures Split(a + [sep] + b, sep) == Split(a, sep) + Split(b, sep)
    decreases |a|
  {
    var s := a + [sep] + b;
    assert FirstIndexOf(s, sep) == if FirstIndexOf(a, sep) < |a| then FirstIndexOf(a, sep) else |a| by {
      FirstIndexOfConcat(a, [sep] + b, sep);
      assert s == a + ([sep] + b);
    }
    var k := FirstIndexOf(a, sep);
    if k < |a| {
      assert s[..k] == a[..k];
      assert s[k + 1..] == a[k + 1..] + [sep] + b;
      assert Split(s, sep) == [a[..k]] + Split(a[k + 1..] + [sep] + b, sep);
      assert Split(a, sep) == [a[..k]] + Split(a[k + 1..], sep);
      SplitConcat(a[k + 1..], b, sep);
      PartsAssoc([a[..k]], Split(a[k + 1..], sep), Split(b, sep));
    } else {
      assert s[..|a|] == a && s[|a| + 1..] == b;
      assert Split(s, sep) == [a] + Split(b, sep);
    }
  }

  lemma PartsAssoc(x: seq<string>, l: seq<string>, m: seq<string>)
    ensures x + (l + m) == (x + l) + m
  {
  }

  lemma SplitNoSep(s: string, sep: char)
    requires sep !in s
    ensures Split(s, sep) == [s]
  {
    assert FirstIndexOf(s, sep) == |s|;
  }

  lemma SplitEmpty(sep: char)
    ensures Split([], sep) == [[]]
  {
  }

  /** A text that ends with the separator has an empty last part. */
  lemma SplitTerminated(u: string, sep: char)
    requires u != [] && u[|u| - 1] == sep
    ensures Split(u, sep) == Split(u[..|u| - 1], sep) + [[]]
  {
    assert u == u[..|u| - 1] + [sep] + [];
    SplitConcat(u[..|u| - 1], [], sep);
  }

  /** Appending one terminated line to a terminated text adds exactly that
      part. */
  lemma SplitAppendLine(u: string, x: string, sep: char)
    requires u == [] || u[|u| - 1] == sep
    requires sep !in x
    ensures Split(u, sep) != [] && Split(u, sep)[|Split(u, sep)| - 1] == []
    ensures Split(u + x + [sep], sep) == Split(u, sep)[..|Split(u, sep)| - 1] + [x, []]
  {
    SplitOneLine(x, sep);
    var y := x + [sep];
    if u == [] {
      assert u + x + [sep] == y;
    } else {
      AppendAssoc(u, x, [sep]);
      SplitAfterTerminated(u, y, sep);
    }
  }

  lemma AppendAssoc(a: string, b: string, c: string)
    ensures a + b + c == a + (b + c)
  {
  }

  /** Text after a terminated text splits on its own, and its first part
      takes the place of the empty last part. */
  lemma SplitAfterTerminated(u: string, y: string, sep: char)
    requires u != [] && u[|u| - 1] == sep
    ensures Split(u, sep)[|Split(u, sep)| - 1] == []
    ensures Split(u + y, sep) == Split(u, sep)[..|Split(u, sep)| - 1] + Split(y, sep)
  {
    var p := u[..|u| - 1];
    SplitTerminated(u, sep);
    assert u + y == p + [sep] + y;
    SplitConcat(p, y, sep);
    assert (Split(p, sep) + [[]])[..|Split(p, sep)|] == Split(p, sep);
  }

  /** One terminated line splits into the line and an empty part. */
  lemma SplitOneLine(x: string, sep: char)
    requires sep !in x
    ensures Split(x + [sep], sep) == [x, []]
  {
    SplitNoSep(x, sep);
    assert x + [sep] == x + [sep] + [];
    SplitConcat(x, [], sep);
  }

  /** s.replace(c, '') */
  function Remove(s: string, c: char): (r: string)
    ensures c !in r
    ensures |r| <= |s|
    ensures c !in s ==> r == s
  {
    if s == [] then [] else (if s[0] == c then [] else [s[0]]) + Remove(s[1..], c)
  }

  lemma {:induction false} RemoveConcat(a: string, b: string, c: char)
    ensures Remove(a + b, c) == Remove(a, c) + Remove(b, c)
    decreases |a|
  {
    if a != [] {
      assert (a + b)[1..] == a[1..] + b;
      RemoveConcat(a[1..], b, c);
    } else {
      assert a + b == b;
    }
  }

  // ---------------------------------------------------------- integers

  predicate IsDigit(c: char) { '0' <= c <= '9' }

  predicate AllDigits(s: string) { forall i :: 0 <= i < |s| ==> IsDigit(s[i]) }

  function DigitValue(c: char): nat
    requires IsDigit(c)
  {
    c as int - '0' as int
  }

  function DigitsValue(s: string): nat
    requires AllDigits(s)
  {
    if s == [] then 0 else 10 * DigitsValue(s[..|s| - 1]) + DigitValue(s[|s| - 1])
  }

  /** Decimal rendering of a natural number (str(n)). */
  function NatToString(n: nat): (r: string)
    ensures r != [] && AllDigits(r)
    decreases n
  {
    if n < 10 then [('0' as int + n) as char]
    else NatToString(n / 10) + [('0' as int + n % 10) as char]
  }

  lemma {:induction false} NatToStringValue(n: nat)
    ensures DigitsValue(NatToString(n)) == n
    decreases n
  {
    if n >= 10 {
      NatToStringValue(n / 10);
      var r := NatToString(n);
      assert r[..|r| - 1] == NatToString(n / 10);
    }
  }

  function IntToString(i: int): string
  {
    if i < 0 then "-" + NatToString(-i) else NatToString(i)
  }

  /** The numeral after an optional leading sign. */
  function AfterSign(t: string): (u: string)
    ensures |u| <= |t| && u == t[|t| - |u|..]
  {
    if t != [] && (t[0] == '+' || t[0] == '-') then t[1..] else t
  }

  /** Python allows an underscore in a numeral only between two digits. */
  predicate UnderscoresBetweenDigits(u: string)
  {
    forall i :: 0 <= i < |u| ==> UnderscoreBetweenDigits(u, i)
  }

  predicate UnderscoreBetweenDigits(u: string, i: nat)
    requires i < |u|
  {
    u[i] == '_' ==> 0 < i < |u| - 1 && IsDigit(u[i - 1]) && IsDigit(u[i + 1])
  }

  /** Dropping a character keeps exactly the others. */
  lemma {:induction false} RemoveChars(u: string, x: char)
    ensures forall c :: c in Remove(u, x) <==> c in u && c != x
    decreases |u|
  {
    if u != [] {
      RemoveChars(u[1..], x);
      assert u == [u[0]] + u[1..];
    }
  }

  /** Without the character x a text is all digits exactly when every
      character of it is a digit or x. */
  lemma RemoveAllDigits(u: string, x: char)
    ensures AllDigits(Remove(u, x)) <==> forall k :: 0 <= k < |u| ==> IsDigit(u[k]) || u[k] == x
  {
    RemoveChars(u, x);
    var r := Remove(u, x);
    if AllDigits(r) {
      forall k | 0 <= k < |u| && u[k] != x
        ensures IsDigit(u[k])
      {
        assert u[k] in r;
      }
    } else {
      var k :| 0 <= k < |r| && !IsDigit(r[k]);
      assert r[k] in u;
    }
  }

  /** A signed numeral whose underscores sit between digits and whose other
      characters are digits ends in a digit and holds only digits and
      underscores after its first character. */
  lemma NumeralShape(t: string)
    requires var u := AfterSign(t); u != [] && UnderscoresBetweenDigits(u) && AllDigits(Remove(u, '_'))
    ensures t != [] && IsDigit(t[|t| - 1])
    ensures forall k :: 0 < k < |t| ==> IsDigit(t[k]) || t[k] == '_'
  {
    var u := AfterSign(t);
    RemoveAllDigits(u, '_');
    assert UnderscoreBetweenDigits(u, |u| - 1);
    assert IsDigit(u[|u| - 1]);
    assert forall k :: 0 < k < |t| ==> t[k] == u[k - (|t| - |u|)];
  }

  /** int(s) for a str argument: white space around an optional sign and
      ASCII digits, single underscores allowed between digits; anything else
      raises ValueError (None). */
  function PyInt(s: string): (r: Option<int>)
    ensures r.Some? ==> var t := Strip(s);
      && t != [] && IsDigit(t[|t| - 1])
      && (forall k :: 0 < k < |t| ==> IsDigit(t[k]) || t[k] == '_')
      && (r.value < 0 ==> t[0] == '-')
      && (t[0] == '-' ==> r.value <= 0)
  {
    SignedNumeral(Strip(s))
  }

  /** The integer of a stripped numeral, or None. */
  function SignedNumeral(t: string): (r: Option<int>)
    ensures r.Some? ==>
      && t != [] && IsDigit(t[|t| - 1])
      && (forall k :: 0 < k < |t| ==> IsDigit(t[k]) || t[k] == '_')
      && (r.value < 0 ==> t[0] == '-')
      && (t[0] == '-' ==> r.value <= 0)
  {
    var u := AfterSign(t);
    if u != [] && UnderscoresBetweenDigits(u) && AllDigits(Remove(u, '_')) then
      NumeralShape(t);
      var v := DigitsValue(Remove(u, '_'));
      Some(if t[0] == '-' then -(v as int) else v)
    else None
  }

  /** A plain numeral (no underscores) reads as its signed value. */
  lemma NumeralOfPlain(t: string, digits: string)
    requires AfterSign(t) == digits && digits != [] && AllDigits(digits)
    ensures SignedNumeral(t) == Some(if t[0] == '-' then -(DigitsValue(digits) as int) else DigitsValue(digits))
  {
    assert '_' !in digits;
    assert Remove(digits, '_') == digits;
    assert UnderscoresBetweenDigits(digits);
  }

  /** A run of digits reads as its value. */
  lemma PyIntOfDigits(s: string)
    requires s != [] && AllDigits(s)
    ensures PyInt(s) == Some(DigitsValue(s))
  {
    assert IsDigit(s[0]) && IsDigit(s[|s| - 1]);
    assert Strip(s) == s by {
      StripKeepsUnpadded(s);
    }
    assert s[0] != '+' && s[0] != '-';
    assert '_' !in s;
  }

  /** int() reads back the decimal text of any integer, whatever white
      space surrounds it. */
  lemma PyIntOfIntToString(n: int, pre: string, post: string)
    requires forall k :: 0 <= k < |pre| ==> IsSpace(pre[k])
    requires forall k :: 0 <= k < |post| ==> IsSpace(post[k])
    ensures PyInt(pre + IntToString(n) + post) == Some(n)
  {
    var d := IntToString(n);
    StripOfPadded(pre, d, post);
    NumeralOfIntToString(n);
  }

  /** An unpadded text between white space strips to itself. */
  lemma StripOfPadded(pre: string, d: string, post: string)
    requires forall k :: 0 <= k < |pre| ==> IsSpace(pre[k])
    requires forall k :: 0 <= k < |post| ==> IsSpace(post[k])
    requires Unpadded(d, IsSpace)
    ensures Strip(pre + d + post) == d
  {
    var s := pre + d + post;
    assert s[|pre|..|pre| + |d|] == d;
    assert PaddedAt(s, d, |pre|, IsSpace);
    StripIsTheCore(s, d, |pre|);
  }

  lemma NumeralOfIntToString(n: int)
    ensures Unpadded(IntToString(n), IsSpace)
    ensures SignedNumeral(IntToString(n)) == Some(n)
  {
    var d := IntToString(n);
    var m: nat := if n < 0 then -n else n;
    NatToStringValue(m);
    assert AfterSign(d) == NatToString(m);
    NumeralOfPlain(d, NatToString(m));
  }

  /** Underscores group digits: `1_000` is a thousand... */
  lemma PyIntUnderscores()
    ensures PyInt("1_000") == Some(1000)
  {
    PyIntOfUnpadded("1_000");
    NumeralOneThousand();
  }

  /** ...while a doubled or leading underscore is refused... */
  lemma PyIntMisplacedUnderscores()
    ensures PyInt("1__000").None? && PyInt("_1").None?
  {
    PyIntOfUnpadded("1__000");
    PyIntOfUnpadded("_1");
    NumeralsRefused();
  }

  /** ...and so is one that ends the numeral or follows the sign. */
  lemma PyIntUnderscoreAtEdge()
    ensures PyInt("1_").None? && PyInt("-_1").None?
  {
    PyIntOfUnpadded("1_");
    PyIntOfUnpadded("-_1");
    NumeralsRefused();
  }

  /** A text whose last character is neither a digit nor white space is not
      an int text. */
  lemma NoFinalDigitNoInt(t: string)
    requires t != [] && !IsSpace(t[0]) && !IsSpace(t[|t| - 1]) && !IsDigit(t[|t| - 1])
    ensures PyInt(t).None?
  {
    UnpaddedIsStripped(t);
  }

  lemma PyIntOfUnpadded(t: string)
    requires t != [] && !IsSpace(t[0]) && !IsSpace(t[|t| - 1])
    ensures PyInt(t) == SignedNumeral(t)
  {
    UnpaddedIsStripped(t);
  }

  lemma NumeralOneThousand()
    ensures SignedNumeral("1_000") == Some(1000)
  {
    assert AfterSign("1_000") == "1_000";
    assert Remove("1_000", '_') == "1000";
    assert DigitsValue("1000") == 1000 by {
      assert "1000"[..3] == "100" && "100"[..2] == "10" && "10"[..1] == "1";
    }
  }

  lemma NumeralsRefused()
    ensures SignedNumeral("1__000").None? && SignedNumeral("_1").None?
    ensures SignedNumeral("1_").None? && SignedNumeral("-_1").None?
  {
    assert AfterSign("1__000") == "1__000";
    assert !UnderscoreBetweenDigits("1__000", 1);
    assert AfterSign("_1") == "_1";
    assert !UnderscoreBetweenDigits("_1", 0);
    assert AfterSign("1_") == "1_";
    assert !UnderscoreBetweenDigits("1_", 1);
    assert AfterSign("-_1") == "_1";
  }

  lemma UnpaddedIsStripped(s: string)
    requires s != [] && !IsSpace(s[0]) && !IsSpace(s[|s| - 1])
    ensures Strip(s) == s
  {
    StripKeepsUnpadded(s);
  }

  // ------------------------------------------------ float() syntax

  /** Index of the first `e` or `E`, or |s| when there is none. */
  function ExponentAt(s: string): (k: nat)
    ensures k <= |s|
    ensures k < |s| ==> s[k] == 'e' || s[k] == 'E'
    ensures forall j :: 0 <= j < k ==> s[j] != 'e' && s[j] != 'E'
  {
    if s == [] then 0 else if s[0] == 'e' || s[0] == 'E' then 0 else 1 + ExponentAt(s[1..])
  }

  /** Digits with at most one dot, and at least one digit. */
  predicate Mantissa(m: string)
  {
    var d := FirstIndexOf(m, '.');
    AllDigits(m[..d]) && (d == |m| || (AllDigits(m[d + 1..]) && |m| >= 2))
    && m != []
  }

  predicate ExponentDigits(x: string)
  {
    var y := if x != [] && (x[0] == '+' || x[0] == '-') then x[1..] else x;
    y != [] && AllDigits(y)
  }

  /** What float() accepts: surrounding whitespace, an optional sign, then a
      decimal numeral with an optional exponent (single underscores allowed
      between its digits), or inf, infinity or nan in any case. */
  predicate FloatSyntax(s: string)
  {
    NumeralSyntax(AfterSign(Strip(s)))
  }

  /** A float numeral after its sign, underscores included. */
  predicate NumeralSyntax(u: string)
  {
    UnderscoresBetweenDigits(u) && UnsignedSyntax(Remove(u, '_'))
  }

  /** A numeral without underscores is read as it stands. */
  lemma NoUnderscores(u: string)
    requires '_' !in u
    ensures UnderscoresBetweenDigits(u) && Remove(u, '_') == u
  {
  }

  /** A digit run is a float numeral. */
  lemma DigitsUnsignedSyntax(d: string)
    requires d != [] && AllDigits(d)
    ensures UnsignedSyntax(d)
  {
    DigitsAreNotExponent(d);
    assert d[..|d|] == d;
  }

  /** What float() accepts after the sign: `inf`, `infinity` or `nan` in any
      case, or a mantissa with an optional exponent. */
  predicate UnsignedSyntax(u: string)
  {
    var k := ExponentAt(u);
    Lower(u) == "inf" || Lower(u) == "infinity" || Lower(u) == "nan"
    || (Mantissa(u[..k]) && (k == |u| || ExponentDigits(u[k + 1..])))
  }

  lemma DigitsAreNotExponent(u: string)
    requires AllDigits(u)
    ensures ExponentAt(u) == |u| && FirstIndexOf(u, '.') == |u|
  {
    assert forall j :: 0 <= j < |u| ==> u[j] != 'e' && u[j] != 'E' && u[j] != '.';
  }

  /** Everything int() accepts, float() accepts too. */
  lemma IntTextIsFloatText(s: string)
    requires PyInt(s).Some?
    ensures FloatSyntax(s)
  {
    var u := AfterSign(Strip(s));
    assert u != [] && UnderscoresBetweenDigits(u) && AllDigits(Remove(u, '_'));
    assert UnderscoreBetweenDigits(u, 0);
    DigitsUnsignedSyntax(Remove(u, '_'));
  }

  /** ...but not the other way round: `3.7` is a float and not an int. */
  lemma DecimalIsOnlyFloat()
    ensures FloatSyntax("3.7") && PyInt("3.7").None?
  {
    var d := "3.7";
    StripKeepsUnpadded(d);
    DecimalSyntax(d);
    DecimalIsFloatText(d);
    DecimalIsNotInt(d);
  }

  lemma DecimalIsFloatText(d: string)
    requires d != [] && d[0] != '+' && d[0] != '-' && Strip(d) == d && UnsignedSyntax(d) && '_' !in d
    ensures FloatSyntax(d)
  {
    assert AfterSign(d) == d;
    NoUnderscores(d);
  }

  lemma DecimalIsNotInt(d: string)
    requires d != [] && d[0] != '+' && d[0] != '-' && Strip(d) == d && !AllDigits(d) && '_' !in d
    ensures PyInt(d).None?
  {
  }

  lemma DecimalSyntax(d: string)
    requires d == "3.7"
    ensures UnsignedSyntax(d) && d[0] != '+' && d[0] != '-' && !AllDigits(d) && '_' !in d
  {
    assert !IsDigit(d[1]);
    assert FirstIndexOf(d, '.') == 1;
    assert ExponentAt(d) == 3;
    assert d[..3] == d;
    assert Lower(d)[0] == '3';
  }

  // ----------------------------------------------------------- slicing

  /** A Python slice bound normalised against a sequence of length n. */
  function SliceBound(n: nat, k: int): (r: nat)
    ensures r <= n
    ensures 0 <= k <= n ==> r == k
    ensures -(n as int) <= k < 0 ==> r == n + k
    ensures k < -(n as int) ==> r == 0
    ensures k > n ==> r == n
  {
    if k < 0 then (if n + k < 0 then 0 else n + k) else if k > n then n else k
  }

  /** s[i:j] */
  function PySlice<T>(s: seq<T>, i: int, j: int): (r: seq<T>)
    ensures |r| <= |s|
  {
    var a := SliceBound(|s|, i);
    var b := SliceBound(|s|, j);
    if a <= b then s[a..b] else []
  }

  /** s[i:] */
  function PyFrom<T>(s: seq<T>, i: int): seq<T>
  {
    s[SliceBound(|s|, i)..]
  }

  /** s[:j] */
  function PyTo<T>(s: seq<T>, j: int): seq<T>
  {
    s[..SliceBound(|s|, j)]
  }

  /** s[i:] keeps the elements from index i on; a negative i keeps the last
      -i elements, and a bound past either end is clamped to it. */
  lemma PyFromRules<T>(s: seq<T>, i: int)
    ensures 0 <= i <= |s| ==> PyFrom(s, i) == s[i..]
    ensures -|s| <= i < 0 ==> |PyFrom(s, i)| == -i && PyFrom(s, i) == s[|s| + i..]
    ensures i < -|s| ==> PyFrom(s, i) == s
    ensures i > |s| ==> PyFrom(s, i) == []
  {
  }

  /** s[:j] keeps the elements before index j; a negative j drops the last
      -j elements, and a bound past either end is clamped to it. */
  lemma PyToRules<T>(s: seq<T>, j: int)
    ensures 0 <= j <= |s| ==> PyTo(s, j) == s[..j]
    ensures -|s| <= j < 0 ==> |PyTo(s, j)| == |s| + j && PyTo(s, j) == s[..|s| + j]
    ensures j < -|s| ==> PyTo(s, j) == []
    ensures j > |s| ==> PyTo(s, j) == s
  {
  }

  /** Splitting at any bound and joining the halves gives the sequence back. */
  lemma PyToFromSplit<T>(s: seq<T>, k: int)
    ensures PyTo(s, k) + PyFrom(s, k) == s
  {
  }
}
