/** The string codecs of the SIM800 client firmware: UCS-2 message bodies to
    UTF-8, JSON string escapes, the SMS batch sent to the server, the HTTP
    status in an `+HTTPACTION` reply and the `+CCLK` clock reply. Strings are
    Arduino byte strings (see ArduinoString). */
module Sim800Codecs {
  import opened Text
  import opened ArduinoString

  // ------------------------------------------------------ bytes and tags

  /** `(char)x`: the low eight bits of an unsigned value. */
  function Byte(x: nat): char
  {
    (x % 256) as char
  }

  /** The low byte of `0x80 | x`: the tag bit and seven bits of `x`. */
  function Or80(x: nat): char
  {
    Byte(0x80 + x % 128)
  }

  /** The low byte of `0xC0 | x`: two tag bits and six bits of `x`. */
  function OrC0(x: nat): char
  {
    Byte(0xC0 + x % 64)
  }

  /** The low byte of `0xE0 | x`: three tag bits and five bits of `x`. */
  function OrE0(x: nat): char
  {
    Byte(0xE0 + x % 32)
  }

  // ------------------------------------------------------------ decodeUcs2

  /** The UTF-8 bytes `decodeUcs2` appends for one unsigned code: one below
      0x80, two below 0x800, three otherwise, with every shifted field cut to
      its byte as `(char)` does. */
  function Utf8Of(code: nat): (r: string)
    ensures |r| == (if code < 0x80 then 1 else if code < 0x800 then 2 else 3)
  {
    if code < 0x80 then [Byte(code)]
    else if code < 0x800 then [OrC0(code / 64), Or80(code % 64)]
    else [OrE0(code / 4096), Or80((code / 64) % 64), Or80(code % 64)]
  }

  /** `(unsigned int)strtol(group, NULL, 16)` for one four-character group. */
  function GroupCode(g: string): (r: nat)
    ensures r < U32
  {
    UnsignedOf(Strtol16(g))
  }

  /** The bytes `decodeUcs2` writes for one four-character group. */
  function GroupBytes(g: string): string
  {
    Utf8Of(GroupCode(g))
  }

  /** The bytes of every four-character group, in order; a shorter tail
      has none. */
  function Ucs2Groups(h: string): string
    decreases |h|
  {
    if |h| < 4 then [] else GroupBytes(h[..4]) + Ucs2Groups(h[4..])
  }

  /** What `decodeUcs2` returns: the text itself when it is shorter than one
      group or not made of whole groups, the decoded groups otherwise. */
  function Ucs2Decoded(hex: string): (r: string)
    ensures |hex| < 4 || |hex| % 4 != 0 ==> r == hex
  {
    if |hex| < 4 || |hex| % 4 != 0 then hex else Ucs2Groups(hex)
  }

  lemma {:induction false} Ucs2GroupsSnoc(h: string, g: string, k: nat)
    requires |h| == 4 * k && |g| == 4
    ensures Ucs2Groups(h + g) == Ucs2Groups(h) + GroupBytes(g)
    decreases k
  {
    if k == 0 {
      assert h + g == g && g[..4] == g && g[4..] == [];
    } else {
      var x := GroupBytes(h[..4]);
      assert (h + g)[..4] == h[..4];
      assert (h + g)[4..] == h[4..] + g;
      assert Ucs2Groups(h + g) == x + Ucs2Groups(h[4..] + g);
      Ucs2GroupsSnoc(h[4..], g, k - 1);
      AppendAssoc(x, Ucs2Groups(h[4..]), GroupBytes(g));
    }
  }

  /** The number of groups in a text made of whole groups. */
  function WholeGroups(h: string): (g: nat)
    requires |h| % 4 == 0
    ensures |h| == 4 * g
  {
    |h| / 4
  }

  /** One turn of the `decodeUcs2` loop: the bytes of one code appended to
      the result. */
  method AppendUtf8(result: string, charCode: nat) returns (r: string)
    ensures r == result + Utf8Of(charCode)
  {
    r := result;
    if charCode < 0x80 {
      r := r + [Byte(charCode)];
    } else if charCode < 0x800 {
      r := r + [OrC0(charCode / 64)];
      r := r + [Or80(charCode % 64)];
    } else {
      var lead, middle, last := OrE0(charCode / 4096), Or80((charCode / 64) % 64), Or80(charCode % 64);
      assert Utf8Of(charCode) == [lead, middle, last];
      r := r + [lead];
      r := r + [middle];
      assert r == result + [lead, middle];
      r := r + [last];
    }
  }

  method DecodeUcs2(hexString: string) returns (result: string)
    ensures result == Ucs2Decoded(hexString)
  {
    result := "";
    if |hexString| < 4 || |hexString| % 4 != 0 {
      return hexString;
    }
    ghost var groups := WholeGroups(hexString);
    ghost var k := 0;
    var i := 0;
    while i < |hexString|
      invariant 0 <= k <= groups && i == 4 * k
      invariant result == Ucs2Groups(hexString[..i])
      decreases |hexString| - i
    {
      NextGroup(hexString, k, groups);
      var hexChar := hexString[i..i + 4];
      var charCode := GroupCode(hexChar);
      result := AppendUtf8(result, charCode);
      i := i + 4;
      k := k + 1;
    }
    assert hexString[..i] == hexString;
  }

  /** The next group of a text made of `groups` whole groups, after the
      first `k`, adds its bytes to those decoded so far. */
  lemma NextGroup(hex: string, k: nat, groups: nat)
    requires |hex| == 4 * groups && k < groups
    ensures 4 * k + 4 <= |hex|
    ensures Ucs2Groups(hex[..4 * k + 4]) == Ucs2Groups(hex[..4 * k]) + GroupBytes(hex[4 * k..4 * k + 4])
  {
    var i := 4 * k;
    assert hex[..i + 4] == hex[..i] + hex[i..i + 4];
    Ucs2GroupsSnoc(hex[..i], hex[i..i + 4], k);
  }

  // ------------------------------------------------- RFC 3629 decoding

  predicate IsSurrogate(v: nat)
  {
    0xD800 <= v <= 0xDFFF
  }

  /** The length of the sequence a lead byte starts, or 0 when it cannot
      start one (RFC 3629 section 3). */
  function LeadLength(c: char): (n: nat)
    ensures n <= 4
  {
    var b := c as int;
    if b < 0x80 then 1
    else if 0xC0 <= b < 0xE0 then 2
    else if 0xE0 <= b < 0xF0 then 3
    else if 0xF0 <= b < 0xF8 then 4
    else 0
  }

  predicate IsContinuation(c: char)
  {
    0x80 <= c as int < 0xC0
  }

  /** The scalar value an n-byte sequence carries in its free bits: the low
      bits of the lead byte (`& 0x7F`, `0x1F`, `0x0F` or `0x07`) and six bits
      of every continuation byte. */
  function SequenceValue(s: string): nat
    requires 1 <= |s| <= 4
  {
    var b0 := s[0] as int;
    if |s| == 1 then b0
    else if |s| == 2 then (b0 % 32) * 64 + (s[1] as int) % 64
    else if |s| == 3 then (b0 % 16) * 4096 + ((s[1] as int) % 64) * 64 + (s[2] as int) % 64
    else (b0 % 8) * 262144 + ((s[1] as int) % 64) * 4096 + ((s[2] as int) % 64) * 64 + (s[3] as int) % 64
  }

  /** The shortest form only, no surrogates, nothing above U+10FFFF. */
  predicate WellFormedValue(n: nat, v: nat)
  {
    (n == 1) || (n == 2 && v >= 0x80) || (n == 3 && v >= 0x800 && !IsSurrogate(v))
    || (n == 4 && 0x10000 <= v <= 0x10FFFF)
  }

  /** A well-formed sequence of n bytes at the head of `b`. */
  predicate SequenceAt(b: string, n: nat)
  {
    1 <= n <= |b| && LeadLength(b[0]) == n
    && (forall k :: 1 <= k < n ==> IsContinuation(b[k]))
    && WellFormedValue(n, SequenceValue(b[..n]))
  }

  /** The code points a byte string encodes under RFC 3629, or None when it
      is ill-formed. */
  function Utf8Decode(b: string): (r: Option<seq<nat>>)
    decreases |b|
  {
    if b == [] then Some([])
    else
      var n := LeadLength(b[0]);
      if !SequenceAt(b, n) then None
      else
        match Utf8Decode(b[n..])
        case None => None
        case Some(rest) => Some([SequenceValue(b[..n])] + rest)
  }

  /** The bytes `Utf8Of` writes for a unit of the Basic Multilingual Plane
      form one sequence that carries the unit. */
  lemma Utf8OfIsSequence(code: nat)
    requires code < 0x10000
    ensures var u := Utf8Of(code);
      LeadLength(u[0]) == |u| && (forall k :: 1 <= k < |u| ==> IsContinuation(u[k]))
      && SequenceValue(u) == code
  {
    if 0x80 <= code < 0x800 {
      TwoByteUnit(code);
    } else if code >= 0x800 {
      ThreeByteUnit(code);
    }
  }

  lemma LeadByte(x: nat)
    requires x < 16
    ensures OrE0(x) as int == 0xE0 + x
  {
  }

  lemma ContinuationByte(x: nat)
    requires x < 64
    ensures Or80(x) as int == 0x80 + x && IsContinuation(Or80(x)) && (Or80(x) as int) % 64 == x
  {
  }

  /** A code below 0x10000 is its top four bits, six middle bits and six
      low bits. */
  lemma SixBitFields(code: nat)
    requires code < 0x10000
    ensures code / 4096 < 16 && code == (code / 4096) * 4096 + ((code / 64) % 64) * 64 + code % 64
  {
    var q := code / 64;
    assert code == 64 * q + code % 64;
    assert q == 64 * (q / 64) + q % 64;
    assert q / 64 == code / 4096;
  }

  lemma TwoByteUnit(code: nat)
    requires 0x80 <= code < 0x800
    ensures var u := Utf8Of(code);
      LeadLength(u[0]) == 2 && IsContinuation(u[1]) && SequenceValue(u) == code
  {
    var u := Utf8Of(code);
    var hi := code / 64;
    var lo := code % 64;
    assert code == hi * 64 + lo;
    assert 2 <= hi < 32;
    assert u[0] as int == 0xC0 + hi;
    ContinuationByte(lo);
  }

  lemma ThreeByteUnit(code: nat)
    requires 0x800 <= code < 0x10000
    ensures var u := Utf8Of(code);
      LeadLength(u[0]) == 3 && IsContinuation(u[1]) && IsContinuation(u[2]) && SequenceValue(u) == code
  {
    var u := Utf8Of(code);
    var hi, mid, lo := code / 4096, (code / 64) % 64, code % 64;
    SixBitFields(code);
    assert u == [OrE0(hi), Or80(mid), Or80(lo)];
    LeadByte(hi);
    ContinuationByte(mid);
    ContinuationByte(lo);
    ThreeByteValue(u, hi, mid, lo);
  }

  /** The value three bytes carry: four bits of the lead byte and six of
      each continuation byte. */
  lemma ThreeByteValue(u: string, hi: nat, mid: nat, lo: nat)
    requires |u| == 3 && hi < 16 && mid < 64 && lo < 64
    requires u[0] as int == 0xE0 + hi && u[1] as int == 0x80 + mid && u[2] as int == 0x80 + lo
    ensures LeadLength(u[0]) == 3 && SequenceValue(u) == hi * 4096 + mid * 64 + lo
  {
    assert (u[0] as int) % 16 == hi;
    assert (u[1] as int) % 64 == mid;
    assert (u[2] as int) % 64 == lo;
  }

  /** Decoding a string that starts with a well-formed sequence. */
  lemma DecodeHead(u: string, rest: string)
    requires SequenceAt(u, |u|)
    ensures Utf8Decode(u + rest) ==
      match Utf8Decode(rest)
      case None => None
      case Some(v) => Some([SequenceValue(u)] + v)
  {
    var b := u + rest;
    assert b[..|u|] == u && b[|u|..] == rest;
    assert forall k :: 1 <= k < |u| ==> b[k] == u[k];
  }

  /** One encoded unit followed by anything decodes as that unit followed
      by whatever the rest decodes to. */
  lemma Utf8OfDecodes(code: nat, rest: string)
    requires code < 0x10000 && !IsSurrogate(code)
    ensures Utf8Decode(Utf8Of(code) + rest) ==
      match Utf8Decode(rest)
      case None => None
      case Some(u) => Some([code] + u)
  {
    var u := Utf8Of(code);
    Utf8OfIsSequence(code);
    assert u[..|u|] == u;
    DecodeHead(u, rest);
  }

  /** A surrogate code unit (half of a character outside the Basic
      Multilingual Plane) turns into three bytes that RFC 3629 rejects. */
  lemma SurrogateIsIllFormed(code: nat, rest: string)
    requires IsSurrogate(code)
    ensures Utf8Decode(Utf8Of(code) + rest) == None
  {
    var u := Utf8Of(code);
    Utf8OfIsSequence(code);
    var b := u + rest;
    assert b[..3] == u;
    assert b[0] == u[0];
  }

  /** `decodeUcs2` checks no group for hex digits (only the first four
      characters of a body are tested before it is called): a group `-001`
      is read by `strtol` as -1, the cast makes it 0xFFFFFFFF, and the three
      bytes written, FF BF BF, are rejected by RFC 3629. */
  lemma MinusOneGroupIllFormed(rest: string)
    ensures GroupCode("-001") == 0xFFFF_FFFF
    ensures GroupBytes("-001") == [0xFF as char, 0xBF as char, 0xBF as char]
    ensures Utf8Decode(GroupBytes("-001") + rest) == None
  {
    StrtolMinusOne();
    AllOnesBytes();
    var b := GroupBytes("-001") + rest;
    assert b[0] == 0xFF as char;
  }

  lemma AllOnesBytes()
    ensures Utf8Of(0xFFFF_FFFF) == [0xFF as char, 0xBF as char, 0xBF as char]
  {
    var code := 0xFFFF_FFFF;
    assert code / 4096 % 32 == 31 && code / 64 % 64 == 63 && code % 64 == 63;
  }

  lemma StrtolMinusOne()
    ensures Strtol16("-001") == -1
  {
    assert SkipCSpace("-001") == "-001";
    LeadingHexOfAllHex("001");
    assert "001"[..2] == "00" && "00"[..1] == "0" && "0"[..0] == "";
  }

  /** A Unicode scalar value: a code point that is not a surrogate. */
  predicate IsScalar(v: nat)
  {
    v < 0xD800 || 0xE000 <= v < 0x110000
  }

  /** A well-formed sequence carries a scalar value. */
  lemma SequenceScalar(b: string, n: nat)
    requires SequenceAt(b, n)
    ensures IsScalar(SequenceValue(b[..n]))
  {
    var u := b[..n];
    assert u[0] == b[0];
    if n == 2 {
      assert (u[0] as int) % 32 * 64 <= 31 * 64;
    } else if n == 3 {
      assert (u[0] as int) % 16 * 4096 <= 15 * 4096;
      assert (u[1] as int) % 64 * 64 <= 63 * 64;
    }
  }

  /** The character a well-formed sequence at the head of `b` encodes. */
  function SequenceChar(b: string, n: nat): (c: char)
    requires SequenceAt(b, n)
    ensures c as int == SequenceValue(b[..n])
  {
    SequenceScalar(b, n);
    SequenceValue(b[..n]) as char
  }

  /** The text a byte string encodes, as the server's `bytes.decode("utf-8")`
      reads it, or None when the bytes are ill-formed. */
  function Utf8Text(b: string): Option<string>
    decreases |b|
  {
    if b == [] then Some([])
    else
      var n := LeadLength(b[0]);
      if !SequenceAt(b, n) then None
      else
        match Utf8Text(b[n..])
        case None => None
        case Some(rest) => Some([SequenceChar(b, n)] + rest)
  }

  /** The text is the decoded code points, character for character. */
  lemma {:induction false} TextIsDecode(b: string)
    ensures Utf8Text(b).Some? <==> Utf8Decode(b).Some?
    ensures Utf8Text(b).Some? ==>
      |Utf8Text(b).value| == |Utf8Decode(b).value|
      && forall i :: 0 <= i < |Utf8Text(b).value| ==> Utf8Text(b).value[i] as int == Utf8Decode(b).value[i]
    decreases |b|
  {
    if b != [] {
      var n := LeadLength(b[0]);
      if SequenceAt(b, n) {
        TextIsDecode(b[n..]);
      }
    }
  }

  predicate Ascii(s: string)
  {
    forall i :: 0 <= i < |s| ==> (s[i] as int) < 0x80
  }

  /** Decoding a text that starts with a well-formed sequence. */
  lemma TextHead(b: string, n: nat)
    requires SequenceAt(b, n)
    ensures Utf8Text(b[n..]).None? ==> Utf8Text(b).None?
    ensures Utf8Text(b[n..]).Some? ==> Utf8Text(b) == Some([SequenceChar(b, n)] + Utf8Text(b[n..]).value)
  {
  }

  /** Two texts that share their first `n` characters share a sequence
      there. */
  lemma SameHead(b: string, c: string, n: nat)
    requires SequenceAt(b, n) && n <= |c| && c[..n] == b[..n]
    ensures SequenceAt(c, n) && SequenceChar(c, n) == SequenceChar(b, n)
  {
    assert forall k :: 0 <= k < n ==> c[k] == c[..n][k];
  }

  /** ASCII text decodes to itself. */
  lemma {:induction false} AsciiText(a: string)
    requires Ascii(a)
    ensures Utf8Text(a) == Some(a)
    decreases |a|
  {
    if a != [] {
      assert SequenceAt(a, 1);
      assert SequenceChar(a, 1) == a[0];
      TextHead(a, 1);
      AsciiText(a[1..]);
      assert a == [a[0]] + a[1..];
    }
  }

  /** Text that decodes, followed by anything: the decoded text, then
      whatever the rest decodes to. */
  lemma {:induction false} TextAppend(a: string, b: string)
    requires Utf8Text(a).Some?
    ensures Utf8Text(b).None? ==> Utf8Text(a + b).None?
    ensures Utf8Text(b).Some? ==> Utf8Text(a + b) == Some(Utf8Text(a).value + Utf8Text(b).value)
    decreases |a|
  {
    if a == [] {
      assert a + b == b && Utf8Text(a) == Some([]);
      if Utf8Text(b).Some? {
        assert [] + Utf8Text(b).value == Utf8Text(b).value;
      }
    } else {
      var n := LeadLength(a[0]);
      assert SequenceAt(a, n);
      TextAppend(a[n..], b);
      TextAppendHead(a, b, n);
    }
  }

  /** One step of TextAppend: the head sequence of `a` heads `a + b`. */
  lemma TextAppendHead(a: string, b: string, n: nat)
    requires SequenceAt(a, n) && Utf8Text(a[n..]).Some?
    requires Utf8Text(b).None? ==> Utf8Text(a[n..] + b).None?
    requires Utf8Text(b).Some? ==> Utf8Text(a[n..] + b) == Some(Utf8Text(a[n..]).value + Utf8Text(b).value)
    ensures Utf8Text(b).None? ==> Utf8Text(a + b).None?
    ensures Utf8Text(b).Some? ==> Utf8Text(a + b) == Some(Utf8Text(a).value + Utf8Text(b).value)
  {
    var ab := a + b;
    HeadOfAppend(a, b, n);
    var c := SequenceChar(a, n);
    TextHead(ab, n);
    if Utf8Text(b).Some? {
      var t, w := Utf8Text(a[n..]).value, Utf8Text(b).value;
      assert Utf8Text(ab) == Some([c] + (t + w));
      assert Utf8Text(a).value == [c] + t by {
        TextHead(a, n);
      }
      ConsAssoc(c, t, w);
    }
  }

  /** A sequence at the head of `a` heads `a + b` too. */
  lemma HeadOfAppend(a: string, b: string, n: nat)
    requires SequenceAt(a, n)
    ensures SequenceAt(a + b, n) && SequenceChar(a + b, n) == SequenceChar(a, n) && (a + b)[n..] == a[n..] + b
  {
    assert (a + b)[..n] == a[..n];
    SameHead(a, a + b, n);
  }

  lemma ConsAssoc(c: char, t: string, w: string)
    ensures [c] + (t + w) == ([c] + t) + w
  {
  }

  /** Ill-formed text stays ill-formed when an ASCII character follows it:
      no sequence it leaves open can be completed by one. */
  lemma {:induction false} TextAppendBad(a: string, c: string)
    requires Utf8Text(a).None? && c != [] && (c[0] as int) < 0x80
    ensures Utf8Text(a + c).None?
    decreases |a|
  {
    var n := LeadLength(a[0]);
    var ac := a + c;
    assert ac[0] == a[0];
    if SequenceAt(a, n) {
      assert ac[..n] == a[..n];
      assert forall k :: 0 <= k < n ==> ac[k] == a[k];
      assert SequenceAt(ac, n);
      assert ac[n..] == a[n..] + c;
      TextAppendBad(a[n..], c);
    } else {
      if n <= |a| {
        assert ac[..n] == a[..n];
        assert forall k :: 0 <= k < n ==> ac[k] == a[k];
      } else if n <= |ac| {
        assert ac[|a|] == c[0];
      }
      assert !SequenceAt(ac, n);
    }
  }

  predicate AllHex(s: string)
  {
    forall i :: 0 <= i < |s| ==> IsHexDigit(s[i])
  }

  /** The UCS-2 code units a run of hex groups stands for. */
  function Units(h: string): (r: seq<nat>)
    requires AllHex(h)
    decreases |h|
  {
    if |h| < 4 then [] else [HexDigitsValue(h[..4])] + Units(h[4..])
  }

  lemma {:induction false} HexBelow(s: string)
    requires AllHex(s)
    ensures HexDigitsValue(s) < Pow16(|s|)
    decreases |s|
  {
    if s != [] {
      HexBelow(s[..|s| - 1]);
    }
  }

  function Pow16(n: nat): (r: nat)
    ensures r >= 1
  {
    if n == 0 then 1 else 16 * Pow16(n - 1)
  }

  /** strtol reads an all-hex group as plain hex digits. */
  lemma GroupCodeOfHex(g: string)
    requires |g| == 4 && AllHex(g)
    ensures GroupCode(g) == HexDigitsValue(g) < 0x10000
  {
    Strtol16OfHex(g);
    HexBelow(g);
    assert Pow16(4) == 0x10000;
  }

  /** strtol(s, NULL, 16) on hex digits alone is their value: no white
      space, sign or `0x` prefix can be among them. */
  lemma Strtol16OfHex(g: string)
    requires g != [] && AllHex(g)
    ensures Strtol16(g) == HexDigitsValue(g)
  {
    assert IsHexDigit(g[0]) && !CIsSpace(g[0]);
    assert SkipCSpace(g) == g;
    assert g[0] != '+' && g[0] != '-';
    assert |g| >= 2 ==> IsHexDigit(g[1]) && g[1] != 'x' && g[1] != 'X';
    LeadingHexOfAllHex(g);
  }

  /** The code units hold no surrogate. */
  predicate NoSurrogate(u: seq<nat>)
  {
    forall k :: 0 <= k < |u| ==> !IsSurrogate(u[k])
  }

  /** The first group of a hex run and the run after it. */
  lemma UnitsHead(hex: string)
    requires AllHex(hex) && |hex| >= 4 && NoSurrogate(Units(hex))
    ensures AllHex(hex[4..]) && Units(hex) == [HexDigitsValue(hex[..4])] + Units(hex[4..])
    ensures !IsSurrogate(HexDigitsValue(hex[..4])) && NoSurrogate(Units(hex[4..]))
  {
    var u := Units(hex);
    assert forall k :: 0 <= k < |Units(hex[4..])| ==> Units(hex[4..])[k] == u[k + 1];
    assert u[0] == HexDigitsValue(hex[..4]);
  }

  /** RFC 3629 section 3 round trip: for groups of hex digits with no
      surrogate unit, decoding the bytes `decodeUcs2` writes gives back the
      UCS-2 code units. */
  lemma {:induction false} Ucs2RoundTrip(hex: string)
    requires AllHex(hex) && NoSurrogate(Units(hex))
    ensures Utf8Decode(Ucs2Groups(hex)) == Some(Units(hex))
    decreases |hex|
  {
    if |hex| >= 4 {
      var g, tail := hex[..4], hex[4..];
      UnitsHead(hex);
      GroupCodeOfHex(g);
      Ucs2RoundTrip(tail);
      Utf8OfDecodes(GroupCode(g), Ucs2Groups(tail));
    }
  }

  /** The same for the whole `decodeUcs2`, given at least one group. */
  lemma DecodeUcs2RoundTrip(hex: string)
    requires |hex| >= 4 && |hex| % 4 == 0 && AllHex(hex) && NoSurrogate(Units(hex))
    ensures Utf8Decode(Ucs2Decoded(hex)) == Some(Units(hex))
  {
    Ucs2RoundTrip(hex);
  }

  // ------------------------------------------------------------ escapeJson

  /** The characters `escapeJson` writes as a backslash pair. */
  predicate NeedsEscape(c: char)
  {
    c == '"' || c == '\\' || c == '/' || c == '\U{8}' || c == '\U{C}' || c == '\n' || c == '\r' || c == '\t'
  }

  /** The letter after the backslash (section 7 of RFC 8259). */
  function EscapeLetter(c: char): (e: char)
    requires NeedsEscape(c)
  {
    if c == '\U{8}' then 'b'
    else if c == '\U{C}' then 'f'
    else if c == '\n' then 'n'
    else if c == '\r' then 'r'
    else if c == '\t' then 't'
    else c
  }

  function EscapeChar(c: char): (r: string)
    ensures |r| == if NeedsEscape(c) then 2 else 1
  {
    if NeedsEscape(c) then ['\\', EscapeLetter(c)] else [c]
  }

  /** The text `escapeJson` returns. */
  function Escape(s: string): (r: string)
    ensures |s| <= |r| <= 2 * |s|
    ensures r == [] <==> s == []
  {
    if s == [] then [] else EscapeChar(s[0]) + Escape(s[1..])
  }

  lemma {:induction false} EscapeSnoc(s: string, c: char)
    ensures Escape(s + [c]) == Escape(s) + EscapeChar(c)
    decreases |s|
  {
    if s == [] {
      assert [c][1..] == [];
    } else {
      assert (s + [c])[1..] == s[1..] + [c];
      EscapeSnoc(s[1..], c);
    }
  }

  method EscapeJson(str: string) returns (result: string)
    ensures result == Escape(str)
  {
    result := "";
    var i := 0;
    while i < |str|
      invariant 0 <= i <= |str|
      invariant result == Escape(str[..i])
    {
      var c := str[i];
      if c == '"' {
        result := result + "\\\"";
      } else if c == '\\' {
        result := result + "\\\\";
      } else if c == '/' {
        result := result + "\\/";
      } else if c == '\U{8}' {
        result := result + "\\b";
      } else if c == '\U{C}' {
        result := result + "\\f";
      } else if c == '\n' {
        result := result + "\\n";
      } else if c == '\r' {
        result := result + "\\r";
      } else if c == '\t' {
        result := result + "\\t";
      } else {
        result := result + [c];
      }
      assert str[..i + 1] == str[..i] + [c];
      EscapeSnoc(str[..i], c);
      i := i + 1;
    }
    assert str[..i] == str;
  }

  function EscapeCount(s: string): nat
  {
    if s == [] then 0 else (if NeedsEscape(s[0]) then 1 else 0) + EscapeCount(s[1..])
  }

  /** The output is the input plus one backslash per escaped character. */
  lemma {:induction false} EscapeLength(s: string)
    ensures |Escape(s)| == |s| + EscapeCount(s)
    decreases |s|
  {
    if s != [] {
      EscapeLength(s[1..]);
    }
  }

  /** A character RFC 8259 forbids raw inside a string and `escapeJson`
      leaves raw: a control character other than the five it escapes. */
  predicate BareControl(c: char)
  {
    (c as int) < 0x20 && !NeedsEscape(c)
  }

  predicate NoBareControl(s: string)
  {
    forall i :: 0 <= i < |s| ==> !BareControl(s[i])
  }

  /** The character a two-character escape stands for. */
  function Unescape(e: char): Option<char>
  {
    if e == '"' || e == '\\' || e == '/' then Some(e)
    else if e == 'b' then Some('\U{8}')
    else if e == 'f' then Some('\U{C}')
    else if e == 'n' then Some('\n')
    else if e == 'r' then Some('\r')
    else if e == 't' then Some('\t')
    else None
  }

  /** Reads the body of a JSON string (RFC 8259 section 7) that starts after
      its opening quote: the value up to the closing quote and the text after
      it, or None when the body is not valid. The six-character `\u` form,
      which `escapeJson` never writes, is not read. */
  function ReadString(t: string): (r: Option<(string, string)>)
    ensures r.Some? ==> |r.value.1| < |t|
    decreases |t|
  {
    if t == [] then None
    else if t[0] == '"' then Some(([], t[1..]))
    else if t[0] == '\\' then
      if |t| < 2 || Unescape(t[1]).None? then None
      else
        match ReadString(t[2..])
        case None => None
        case Some(p) => Some(([Unescape(t[1]).value] + p.0, p.1))
    else if (t[0] as int) < 0x20 then None
    else
      match ReadString(t[1..])
      case None => None
      case Some(p) => Some(([t[0]] + p.0, p.1))
  }

  /** RFC 8259 round trip: the escaped text, closed by a quote, reads back as
      the original exactly when the original holds no bare control
      character; with one the output is not a valid JSON string. */
  lemma {:induction false} EscapeRoundTrip(s: string, rest: string)
    ensures ReadString(Escape(s) + "\"" + rest) == if NoBareControl(s) then Some((s, rest)) else None
    decreases |s|
  {
    if s == [] {
      assert Escape(s) + "\"" + rest == ['"'] + rest;
    } else {
      var tail := Escape(s[1..]) + "\"" + rest;
      AppendAssoc(EscapeChar(s[0]), Escape(s[1..]), "\"");
      AppendAssoc(EscapeChar(s[0]), Escape(s[1..]) + "\"", rest);
      EscapeRoundTrip(s[1..], rest);
      EscapeReadStep(s[0], tail, s[1..], rest);
      assert NoBareControl(s) <==> !BareControl(s[0]) && NoBareControl(s[1..]) by {
        assert forall i :: 1 <= i < |s| ==> s[i] == s[1..][i - 1];
      }
      assert s == [s[0]] + s[1..];
    }
  }

  /** One escaped character in front of a body that reads back. */
  lemma EscapeReadStep(c: char, tail: string, s: string, rest: string)
    requires ReadString(tail) == if NoBareControl(s) then Some((s, rest)) else None
    ensures ReadString(EscapeChar(c) + tail) ==
      if !BareControl(c) && NoBareControl(s) then Some(([c] + s, rest)) else None
  {
    var t := EscapeChar(c) + tail;
    if NeedsEscape(c) {
      assert t[0] == '\\' && t[1] == EscapeLetter(c) && t[2..] == tail;
    } else {
      assert t[0] == c && t[1..] == tail;
    }
  }

  // ------------------------------------- escaped text through UTF-8

  lemma {:induction false} EscapeAppend(x: string, y: string)
    ensures Escape(x + y) == Escape(x) + Escape(y)
    decreases |x|
  {
    if x != [] {
      assert (x + y)[1..] == x[1..] + y;
      EscapeAppend(x[1..], y);
    } else {
      assert x + y == y;
    }
  }

  /** `escapeJson` leaves every character from 0x80 up alone. */
  lemma {:induction false} EscapeHigh(x: string)
    requires forall i :: 0 <= i < |x| ==> (x[i] as int) >= 0x80
    ensures Escape(x) == x
    decreases |x|
  {
    if x != [] {
      EscapeHigh(x[1..]);
      assert x == [x[0]] + x[1..];
    }
  }

  /** Escaped text that starts with `m` characters from 0x80 up starts with
      the same `m` characters as the text. */
  lemma {:induction false} EscapedHighPrefix(s: string, m: nat)
    requires m <= |Escape(s)| && forall i :: 0 <= i < m ==> (Escape(s)[i] as int) >= 0x80
    ensures m <= |s| && Escape(s)[..m] == s[..m]
    decreases m
  {
    if m > 0 {
      var e := Escape(s);
      assert e == EscapeChar(s[0]) + Escape(s[1..]);
      assert e[0] == s[0] && e[1..] == Escape(s[1..]);
      EscapedHighPrefix(s[1..], m - 1);
      assert e[..m] == [s[0]] + e[1..][..m - 1];
      assert s[..m] == [s[0]] + s[1..][..m - 1];
    }
  }

  /** A well-formed sequence at the head of the escaped text was one at the
      head of the text, when the text starts above ASCII. */
  lemma EscapedHead(s: string)
    requires s != [] && (s[0] as int) >= 0x80
    ensures var n := LeadLength(s[0]);
      SequenceAt(Escape(s), n) ==> SequenceAt(s, n)
  {
    var n := LeadLength(s[0]);
    var e := Escape(s);
    assert e == EscapeChar(s[0]) + Escape(s[1..]);
    assert e[0] == s[0];
    if SequenceAt(e, n) {
      EscapedHighPrefix(s, n);
      assert forall k :: 0 <= k < n ==> e[k] == e[..n][k];
    }
  }

  /** Decoding commutes with `escapeJson`: escaping only rewrites ASCII
      characters, which UTF-8 carries as themselves, and an ill-formed text
      stays ill-formed. */
  lemma {:induction false} EscapeText(s: string)
    ensures Utf8Text(Escape(s)) ==
      match Utf8Text(s)
      case None => None
      case Some(t) => Some(Escape(t))
    decreases |s|
  {
    if s != [] {
      var n := LeadLength(s[0]);
      if !SequenceAt(s, n) {
        EscapeBadHead(s);
      } else if n == 1 {
        EscapeText(s[1..]);
        EscapeAsciiHead(s);
      } else {
        EscapeText(s[n..]);
        EscapeWideHead(s, n);
      }
    }
  }

  /** The property EscapeText proves, for one text. */
  predicate EscapesAsText(s: string)
  {
    Utf8Text(Escape(s)) ==
      match Utf8Text(s)
      case None => None
      case Some(t) => Some(Escape(t))
  }

  lemma EscapeCons(c: char, t: string)
    ensures Escape([c] + t) == EscapeChar(c) + Escape(t)
  {
    assert ([c] + t)[1..] == t;
  }

  /** A text whose head is ill-formed escapes to an ill-formed text. */
  lemma EscapeBadHead(s: string)
    requires s != [] && !SequenceAt(s, LeadLength(s[0]))
    ensures Utf8Text(s).None? && Utf8Text(Escape(s)).None?
  {
    var n := LeadLength(s[0]);
    assert (s[0] as int) >= 0x80 by {
      if (s[0] as int) < 0x80 {
        assert SequenceAt(s, n);
      }
    }
    EscapedHead(s);
    var e := Escape(s);
    assert e == EscapeChar(s[0]) + Escape(s[1..]);
    assert e[0] == s[0];
  }

  /** An ASCII head is escaped on its own. */
  lemma EscapeAsciiHead(s: string)
    requires s != [] && SequenceAt(s, 1) && EscapesAsText(s[1..])
    ensures EscapesAsText(s)
  {
    var c := EscapeChar(s[0]);
    assert Escape(s) == c + Escape(s[1..]);
    assert Ascii(c);
    AsciiText(c);
    TextAppend(c, Escape(s[1..]));
    TextHead(s, 1);
    assert SequenceChar(s, 1) == s[0];
    if Utf8Text(s[1..]).Some? {
      EscapeCons(s[0], Utf8Text(s[1..]).value);
    }
  }

  /** A sequence of two or more bytes passes through the escape unchanged. */
  lemma EscapeWideHead(s: string, n: nat)
    requires SequenceAt(s, n) && n >= 2 && EscapesAsText(s[n..])
    ensures EscapesAsText(s)
  {
    var u := s[..n];
    var ch := SequenceChar(s, n);
    assert s == u + s[n..];
    WideSequenceEscape(s, n);
    EscapeAppend(u, s[n..]);
    SequenceText(s, n);
    TextAppend(u, Escape(s[n..]));
    TextHead(s, n);
    assert (ch as int) >= 0x80;
    if Utf8Text(s[n..]).Some? {
      EscapeCons(ch, Utf8Text(s[n..]).value);
    }
  }

  /** The bytes of a sequence of two or more pass through the escape. */
  lemma WideSequenceEscape(s: string, n: nat)
    requires SequenceAt(s, n) && n >= 2
    ensures Escape(s[..n]) == s[..n]
  {
    var u := s[..n];
    assert forall k :: 0 <= k < n ==> (u[k] as int) >= 0x80 by {
      assert forall k :: 1 <= k < n ==> IsContinuation(s[k]);
    }
    EscapeHigh(u);
  }

  /** One sequence on its own decodes to its one character. */
  lemma SequenceText(s: string, n: nat)
    requires SequenceAt(s, n)
    ensures Utf8Text(s[..n]) == Some([SequenceChar(s, n)])
  {
    var u := s[..n];
    assert u[..n] == s[..n] && u[n..] == [];
    SameHead(s, u, n);
    TextHead(u, n);
    assert [SequenceChar(s, n)] + [] == [SequenceChar(s, n)];
  }

  // ------------------------------------------------------ parseStatusCode

  /** `parseStatusCode`: the three characters after the first comma of an
      `+HTTPACTION` reply read with `toInt`, or 0 when there is no comma. */
  function ParseStatusCode(response: string): (code: int)
    ensures IndexOfChar(response, ',', 0) == -1 ==> code == 0
  {
    var commaPos := IndexOfChar(response, ',', 0);
    if commaPos != -1 then ToInt(Substring(response, commaPos + 1, commaPos + 4)) else 0
  }

  /** The status of a reply `<head>,<three digits><rest>` whose head holds no
      comma is the number those digits spell. */
  lemma StatusCodeRead(head: string, status: string, rest: string)
    requires ',' !in head && |status| == 3 && AllDigits(status)
    requires Fits(head + "," + status + rest)
    ensures ParseStatusCode(head + "," + status + rest) == DigitsValue(status)
  {
    var reply := head + "," + status + rest;
    assert reply[|head|] == ',';
    assert forall j :: 0 <= j < |head| ==> reply[j] == head[j];
    assert IndexOfChar(reply, ',', 0) == |head|;
    assert reply[|head| + 1..|head| + 4] == status;
    ToIntOfDigits(status, []);
    assert status + [] == status;
  }

  // ---------------------------------------------------- getCurrentDateTime

  /** What `getCurrentDateTime` returns when the module gives no usable
      clock reply. */
  const FallbackTime := "2000-01-01T00:00:00+00:00"

  /** The zone suffix written after the seconds of a `+CCLK` time: `+00:00`
      when the reply stops after the seconds, `+zz:00` for two characters,
      anything else copied as it stands (3GPP TS 27.007 section 8.15 counts
      the zone in quarters of an hour; the firmware does not convert it). */
  function ClockZone(dateTime: string): (tz: string)
    requires |dateTime| >= 17
    ensures |dateTime| == 17 ==> tz == "+00:00"
    ensures |dateTime| == 19 ==> tz == "+" + dateTime[17..] + ":00"
    ensures |dateTime| != 17 && |dateTime| != 19 ==> tz == dateTime[17..]
  {
    if |dateTime| > 17 then
      var tz := dateTime[17..];
      if |tz| == 2 then "+" + tz + ":00" else tz
    else "+00:00"
  }

  /** `YY/MM/DD,HH:MM:SS[zone]` rewritten as `20YY-MM-DDTHH:MM:SS` and the
      zone. */
  function ClockIso(dateTime: string): (r: string)
    requires |dateTime| >= 17
  {
    "20" + dateTime[0..2] + "-" + dateTime[3..5] + "-" + dateTime[6..8] + "T"
    + dateTime[9..11] + ":" + dateTime[12..14] + ":" + dateTime[15..17] + ClockZone(dateTime)
  }

  /** The ISO 8601 layout of a formatted clock: the century `20`, the six
      two-character fields of the reply at their places, separated by `-`,
      `T` and `:`, then the zone. */
  predicate IsoLayout(dateTime: string, r: string)
    requires |dateTime| >= 17
  {
    |r| >= 19 && r[..2] == "20" && r[4] == '-' && r[7] == '-' && r[10] == 'T'
    && r[13] == ':' && r[16] == ':'
    && r[2..4] == dateTime[0..2] && r[5..7] == dateTime[3..5] && r[8..10] == dateTime[6..8]
    && r[11..13] == dateTime[9..11] && r[14..16] == dateTime[12..14] && r[17..19] == dateTime[15..17]
    && r[19..] == ClockZone(dateTime)
  }

  lemma ClockIsoLayout(dateTime: string)
    requires |dateTime| >= 17
    ensures IsoLayout(dateTime, ClockIso(dateTime))
    ensures |ClockIso(dateTime)| == 19 + |ClockZone(dateTime)|
  {
    IsoPieces(dateTime[0..2], dateTime[3..5], dateTime[6..8], dateTime[9..11], dateTime[12..14], dateTime[15..17], ClockZone(dateTime));
  }

  /** Six two-character fields and a zone, joined as ISO 8601 joins them,
      each at its place. */
  lemma IsoPieces(yy: string, mo: string, dd: string, hh: string, mi: string, ss: string, zone: string)
    requires |yy| == 2 && |mo| == 2 && |dd| == 2 && |hh| == 2 && |mi| == 2 && |ss| == 2
    ensures var r := "20" + yy + "-" + mo + "-" + dd + "T" + hh + ":" + mi + ":" + ss + zone;
      && |r| == 19 + |zone| && r[..2] == "20" && r[4] == '-' && r[7] == '-' && r[10] == 'T'
      && r[13] == ':' && r[16] == ':'
      && r[2..4] == yy && r[5..7] == mo && r[8..10] == dd
      && r[11..13] == hh && r[14..16] == mi && r[17..19] == ss && r[19..] == zone
  {
    var date := "20" + yy + "-" + mo + "-" + dd;
    var time := hh + ":" + mi + ":" + ss;
    assert date[..2] == "20" && date[2..4] == yy && date[4] == '-' && date[5..7] == mo && date[7] == '-' && date[8..10] == dd;
    assert time[..2] == hh && time[2] == ':' && time[3..5] == mi && time[5] == ':' && time[6..8] == ss;
    var p := date + "T" + time;
    assert p == "20" + yy + "-" + mo + "-" + dd + "T" + hh + ":" + mi + ":" + ss;
    assert p[..10] == date && p[10] == 'T' && p[11..] == time;
  }

  /** The pure part of `getCurrentDateTime` on the module's reply to
      `AT+CCLK?`: the text from seven past `+CCLK:` up to the next carriage
      return, with its quotes removed, is reformatted when it has at least
      17 characters; otherwise the fixed fallback time. */
  function CurrentDateTime(response: string): (r: string)
    ensures IndexOf(response, "+CCLK:", 0) == -1 ==> r == FallbackTime
  {
    var at := IndexOf(response, "+CCLK:", 0);
    if at == -1 then FallbackTime
    else
      var startIndex := at + 7;
      var e := IndexOf(response, "\r", startIndex);
      var endIndex := if e == -1 then |response| else e;
      var dateTime := Remove(Substring(response, startIndex, endIndex), '"');
      if |dateTime| >= 17 then ClockIso(dateTime) else FallbackTime
  }

  /** Every reply yields either the fallback or an ISO 8601 layout of the
      quote-free clock text. */
  lemma CurrentDateTimeShape(response: string)
    ensures var r := CurrentDateTime(response);
      r == FallbackTime || exists dt :: |dt| >= 17 && '"' !in dt && IsoLayout(dt, r)
  {
    var at := IndexOf(response, "+CCLK:", 0);
    if at != -1 {
      var e := IndexOf(response, "\r", at + 7);
      var dateTime := Remove(Substring(response, at + 7, if e == -1 then |response| else e), '"');
      if |dateTime| >= 17 {
        ClockIsoLayout(dateTime);
      }
    }
  }

  /** The clock text of a `+CCLK` reply, `yy/MM/dd,hh:mm:ss` and a zone. */
  function ClockText(yy: string, mo: string, dd: string, hh: string, mi: string, ss: string, zone: string): string
  {
    yy + "/" + mo + "/" + dd + "," + hh + ":" + mi + ":" + ss + zone
  }

  /** Reformatting reads every two-character field back at its place and
      writes the zone as the firmware does: `+00:00` when there is none,
      `+zz:00` for two characters, verbatim otherwise. A zone in quarters of
      an hour such as `+12` (three hours east) therefore stays `+12`. */
  lemma ClockFields(yy: string, mo: string, dd: string, hh: string, mi: string, ss: string, zone: string)
    requires |yy| == 2 && |mo| == 2 && |dd| == 2 && |hh| == 2 && |mi| == 2 && |ss| == 2
    ensures ClockIso(ClockText(yy, mo, dd, hh, mi, ss, zone))
      == "20" + yy + "-" + mo + "-" + dd + "T" + hh + ":" + mi + ":" + ss
         + (if zone == [] then "+00:00" else if |zone| == 2 then "+" + zone + ":00" else zone)
  {
    var d := ClockText(yy, mo, dd, hh, mi, ss, zone);
    assert d[0..2] == yy && d[3..5] == mo && d[6..8] == dd;
    assert d[9..11] == hh && d[12..14] == mi && d[15..17] == ss;
    assert d[17..] == zone;
  }
}
