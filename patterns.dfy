/** The six case-insensitive regular expressions of the FastAPI gate
    (app_sim800 `SecurityPatterns`). Each is a parenthesised group of
    alternatives; every alternative is a literal except for three regex
    features, which the model keeps: `\x` (an escaped character), `.` (any
    character but a newline) and `a?` (an optional character). */
module SecurityPatterns {
  import opened Text

  datatype Atom = Lit(c: char) | AnyChar

  datatype Check = BlockedPaths | BlockedKeywords | Traversal | PhpInjection | Exploits | UserAgents

  /** The order in which `check_security_violations` tries the groups. */
  const CheckOrder: seq<Check> :=
    [BlockedPaths, BlockedKeywords, Traversal, PhpInjection, Exploits, UserAgents]

  /** The alternatives of each group, in regex syntax. */
  function Alternatives(c: Check): seq<string>
  {
    match c
    case BlockedPaths =>
      ["\\.env", "\\.git", "config\\.json", "secrets\\.ya?ml", "php-cgi", "wp-admin", "adminer", "backup",
       "\\.powenv", "\\.profile", "cgi-bin", "bin/sh", "eval-stdin\\.php", "pearcmd", "\\.s3cfg", "vendor/phpunit",
       "think/app", "Util/PHP", "_info\\.php", "_phpinfo\\.php", "restore\\.php", "backup\\.php", "recovery\\.php",
       "_poopinfo\\.php", "wp-login\\.php", "admin\\.php", "config\\.php", "\\.phpinfo", "_profiler/info"]
    case BlockedKeywords =>
      ["allow_url_include", "auto_prepend_file", "call_user_func_array", "invokefunction",
       "config-create", "/../../", "%2e%2e", "xdebug_session_start", "phpstorm", "debug"]
    case Traversal =>
      ["\\.\\./", "\\.\\.\\\\", "%2e%2e/", "%2e%2e%2f", "\\.\\.;/", "\\.\\.5c", "\\.\\.%255c", "\\.\\.%c0%af"]
    case PhpInjection =>
      ["php://", "<\\?php", "<\\?=", "phar://", "expect://", "zlib://", "data://", "glob://", "ssh2://"]
    case Exploits =>
      ["s=/index/\\\\think\\\\app/invokefunction", "function=call_user_func_array",
       "vars\\[0\\]=md5", "lang=../../../../../../../../"]
    case UserAgents =>
      ["nmap", "sqlmap", "nikto", "metasploit", "havij", "dirbuster", "wpscan", "acunetix", "nessus",
       "firefox/14\\.0a1", "firefox/44\\.0", "chrome/3\\.0\\.195\\.17"]
  }

  /** `pattern.pattern`: the group's regex text, as quoted in block reasons. */
  function Source(c: Check): (r: string)
    ensures |r| >= 2 && r[0] == '(' && r[|r| - 1] == ')'
  {
    "(" + Join(Alternatives(c), "|") + ")"
  }

  /** The first atom of a regex text and how many characters it spans. With
      IGNORECASE a literal is kept in lower case. */
  function FirstAtom(src: string): (r: (Atom, nat))
    requires src != []
    ensures 1 <= r.1 <= |src|
  {
    if src[0] == '\\' && |src| >= 2 then (Lit(LowerChar(src[1])), 2)
    else if src[0] == '.' then (AnyChar, 1)
    else (Lit(LowerChar(src[0])), 1)
  }

  predicate AtomMatches(a: Atom, c: char)
  {
    match a
    case Lit(x) => LowerChar(c) == x
    case AnyChar => c != '\n'
  }

  /** The alternative `src` matches a prefix of `text[i..]`. An atom followed
      by `?` may be taken or skipped. */
  predicate MatchAt(src: string, text: string, i: nat)
    decreases |src|
  {
    if src == [] then true
    else
      var (a, n) := FirstAtom(src);
      if n < |src| && src[n] == '?' then
        (i < |text| && AtomMatches(a, text[i]) && MatchAt(src[n + 1..], text, i + 1))
        || MatchAt(src[n + 1..], text, i)
      else
        i < |text| && AtomMatches(a, text[i]) && MatchAt(src[n..], text, i + 1)
  }

  /** `pattern.search(text)` is not None. */
  predicate Search(c: Check, text: string)
  {
    exists j, i :: 0 <= j < |Alternatives(c)| && 0 <= i <= |text| && MatchAt(Alternatives(c)[j], text, i)
  }

  // ------------------------------------------------------------ lemmas

  /** A text without `.`, `\\` or `?`. */
  predicate PlainText(s: string)
  {
    forall k :: 0 <= k < |s| ==> s[k] != '.' && s[k] != '\\' && s[k] != '?'
  }

  /** A plain alternative matches exactly where the text agrees with it up
      to case. */
  lemma {:induction false} PlainMatch(src: string, text: string, i: nat)
    requires PlainText(src) && i <= |text|
    ensures MatchAt(src, text, i) <==>
      (i + |src| <= |text| && forall k :: 0 <= k < |src| ==> LowerChar(text[i + k]) == LowerChar(src[k]))
    decreases |src|
  {
    if src != [] {
      assert FirstAtom(src) == (Lit(LowerChar(src[0])), 1);
      assert |src| == 1 || src[1] != '?';
      if i < |text| {
        PlainMatch(src[1..], text, i + 1);
      }
      if i + |src| <= |text| && forall k :: 0 <= k < |src| ==> LowerChar(text[i + k]) == LowerChar(src[k]) {
        forall k | 0 <= k < |src| - 1
          ensures LowerChar(text[i + 1 + k]) == LowerChar(src[1..][k])
        {
          assert LowerChar(text[i + (k + 1)]) == LowerChar(src[k + 1]);
        }
      }
      if MatchAt(src, text, i) {
        forall k | 0 <= k < |src|
          ensures LowerChar(text[i + k]) == LowerChar(src[k])
        {
          if k > 0 {
            assert LowerChar(text[i + 1 + (k - 1)]) == LowerChar(src[1..][k - 1]);
          }
        }
      }
    }
  }

  /** Every plain alternative is found case-insensitively wherever its
      lower-cased text occurs in the lower-cased input. */
  lemma PlainOccurrenceFound(c: Check, j: int, text: string, i: nat)
    requires 0 <= j < |Alternatives(c)| && PlainText(Alternatives(c)[j])
    requires i <= |text| && OccursAt(Lower(text), Lower(Alternatives(c)[j]), i)
    ensures Search(c, text)
  {
    var src := Alternatives(c)[j];
    forall k | 0 <= k < |src|
      ensures LowerChar(text[i + k]) == LowerChar(src[k])
    {
      assert Lower(text)[i..i + |src|][k] == Lower(src)[k];
    }
    PlainMatch(src, text, i);
  }

  /** A pattern character outside the escapes and optionals, and the text
      characters it accepts. */
  predicate CharMatches(p: char, c: char)
  {
    if p == '.' then c != '\n' else LowerChar(c) == LowerChar(p)
  }

  predicate NoMeta(s: string)
  {
    forall k :: 0 <= k < |s| ==> s[k] != '\\' && s[k] != '?'
  }

  /** A run of plain characters and dots matches character by character, and
      the rest of the pattern carries on behind it. */
  lemma {:induction false} PrefixMatch(pre: string, rest: string, text: string, i: nat)
    requires NoMeta(pre) && (rest == [] || rest[0] != '?')
    requires i + |pre| <= |text| && forall k :: 0 <= k < |pre| ==> CharMatches(pre[k], text[i + k])
    requires MatchAt(rest, text, i + |pre|)
    ensures MatchAt(pre + rest, text, i)
    decreases |pre|
  {
    if pre != [] {
      var src := pre + rest;
      PrefixTail(pre, rest);
      ShiftAgree(pre, text, i);
      PrefixMatch(pre[1..], rest, text, i + 1);
      CharStep(src, text, i);
    } else {
      assert pre + rest == rest;
    }
  }

  /** The pattern after the first character of a meta-free prefix. */
  lemma PrefixTail(pre: string, rest: string)
    requires pre != [] && NoMeta(pre) && (rest == [] || rest[0] != '?')
    ensures var src := pre + rest;
      && src[0] == pre[0] && src[0] != '\\' && (|src| == 1 || src[1] != '?')
      && src[1..] == pre[1..] + rest && NoMeta(pre[1..])
  {
    var src := pre + rest;
    assert src[0] == pre[0];
    if |pre| > 1 {
      assert src[1] == pre[1];
    }
    assert src[1..] == pre[1..] + rest;
  }

  /** Agreement of a prefix with the text, one character further on. */
  lemma ShiftAgree(pre: string, text: string, i: nat)
    requires pre != [] && i + |pre| <= |text| && forall k :: 0 <= k < |pre| ==> CharMatches(pre[k], text[i + k])
    ensures CharMatches(pre[0], text[i]) && forall k :: 0 <= k < |pre[1..]| ==> CharMatches(pre[1..][k], text[i + 1 + k])
  {
    assert CharMatches(pre[0], text[i + 0]);
    forall k | 0 <= k < |pre[1..]|
      ensures CharMatches(pre[1..][k], text[i + 1 + k])
    {
      assert CharMatches(pre[k + 1], text[i + (k + 1)]);
    }
  }

  /** A character that is neither an escape nor followed by `?` matches
      where the text agrees with it and the rest of the pattern matches
      one further on. */
  lemma CharStep(src: string, text: string, i: nat)
    requires src != [] && src[0] != '\\' && (|src| == 1 || src[1] != '?')
    requires i < |text| && CharMatches(src[0], text[i]) && MatchAt(src[1..], text, i + 1)
    ensures MatchAt(src, text, i)
  {
    var a := if src[0] == '.' then AnyChar else Lit(LowerChar(src[0]));
    assert FirstAtom(src) == (a, 1);
  }

  /** An escaped character matches itself, up to case. */
  lemma EscapeMatch(c: char, rest: string, text: string, i: nat)
    requires rest == [] || rest[0] != '?'
    requires i < |text| && LowerChar(text[i]) == LowerChar(c) && MatchAt(rest, text, i + 1)
    ensures MatchAt(['\\', c] + rest, text, i)
  {
    assert (['\\', c] + rest)[2..] == rest;
  }

  /** An optional plain character may be skipped or taken. */
  lemma OptionalMatch(c: char, rest: string, text: string, i: nat, taken: bool)
    requires c != '\\' && c != '.'
    requires if taken then i < |text| && LowerChar(text[i]) == LowerChar(c) && MatchAt(rest, text, i + 1)
             else MatchAt(rest, text, i)
    ensures MatchAt([c, '?'] + rest, text, i)
  {
    assert ([c, '?'] + rest)[2..] == rest;
  }

  /** The BLOCKED_KEYWORDS entry `/../../` has unescaped dots: any text with
      `/xy/zw/` (no newlines among x, y, z, w) matches it. */
  lemma DotsAreWildcards(text: string, i: nat)
    requires i + 7 <= |text|
    requires text[i] == '/' && text[i + 3] == '/' && text[i + 6] == '/'
    requires text[i + 1] != '\n' && text[i + 2] != '\n' && text[i + 4] != '\n' && text[i + 5] != '\n'
    ensures Search(BlockedKeywords, text)
  {
    var src := "/../../";
    assert NoMeta(src);
    assert forall k :: 0 <= k < 7 ==> CharMatches(src[k], text[i + k]);
    PrefixMatch(src, [], text, i);
    assert src + [] == src;
    assert Alternatives(BlockedKeywords)[5] == src;
  }

  /** So the ordinary path `/ab/cd/` is denied. */
  lemma OrdinaryPathDenied()
    ensures Search(BlockedKeywords, "/ab/cd/?")
  {
    DotsAreWildcards("/ab/cd/?", 0);
  }

  /** `secrets\\.ya?ml` stands for both spellings. */
  lemma OptionalLetter()
    ensures Search(BlockedPaths, "/secrets.yml?") && Search(BlockedPaths, "/secrets.yaml?")
  {
    assert Alternatives(BlockedPaths)[3] == "secrets\\.ya?ml";
    YmlSpelling();
    YamlSpelling();
  }

  lemma YmlSpelling()
    ensures MatchAt("secrets\\.ya?ml", "/secrets.yml?", 1)
  {
    var yml := "/secrets.yml?";
    assert yml[1..8] == "secrets" && yml[8] == '.' && yml[9] == 'y' && yml[10..12] == "ml";
    SpellingMatches(yml, false);
  }

  lemma YamlSpelling()
    ensures MatchAt("secrets\\.ya?ml", "/secrets.yaml?", 1)
  {
    var yaml := "/secrets.yaml?";
    assert yaml[1..8] == "secrets" && yaml[8] == '.' && yaml[9] == 'y' && yaml[10] == 'a';
    assert yaml[11..13] == "ml";
    SpellingMatches(yaml, true);
  }

  /** A plain run of text agrees with itself character by character. */
  lemma PlainAgrees(pre: string, text: string, i: nat)
    requires PlainText(pre) && i + |pre| <= |text| && text[i..i + |pre|] == pre
    ensures NoMeta(pre) && forall k :: 0 <= k < |pre| ==> CharMatches(pre[k], text[i + k])
  {
    forall k | 0 <= k < |pre|
      ensures CharMatches(pre[k], text[i + k])
    {
      assert text[i..i + |pre|][k] == text[i + k];
    }
  }

  /** `secrets\\.ya?ml` matches from position 1 of a text that spells
      `secrets.yml` or, with the optional letter, `secrets.yaml` there. */
  lemma SpellingMatches(text: string, withA: bool)
    requires |text| >= (if withA then 13 else 12)
    requires text[1..8] == "secrets" && text[8] == '.' && text[9] == 'y' && (withA ==> text[10] == 'a')
    requires var at := if withA then 11 else 10; text[at..at + 2] == "ml"
    ensures MatchAt("secrets\\.ya?ml", text, 1)
  {
    var ml, optional, y, escaped := SecretsPieces();
    MlMatches(text, if withA then 11 else 10);
    OptionalStep(ml, optional, text, withA);
    LetterStep(optional, y, text);
    EscapeStep(y, escaped, text);
    SecretsStep(escaped, text);
  }

  /** The pieces of `secrets\\.ya?ml`, each built on the next. */
  lemma SecretsPieces() returns (ml: string, optional: string, y: string, escaped: string)
    ensures ml == "ml" && optional == ['a', '?'] + ml && y == "y" + optional
    ensures escaped == ['\\', '.'] + y && "secrets" + escaped == "secrets\\.ya?ml"
    ensures optional[0] != '?' && y[0] != '?' && escaped[0] != '?'
  {
    ml := "ml";
    optional := ['a', '?'] + ml;
    y := "y" + optional;
    escaped := ['\\', '.'] + y;
  }

  lemma MlMatches(text: string, at: nat)
    requires at + 2 <= |text| && text[at..at + 2] == "ml"
    ensures MatchAt("ml", text, at)
  {
    assert "ml" + [] == "ml";
    PlainAgrees("ml", text, at);
    PrefixMatch("ml", [], text, at);
  }

  lemma OptionalStep(ml: string, optional: string, text: string, withA: bool)
    requires optional == ['a', '?'] + ml && MatchAt(ml, text, if withA then 11 else 10)
    requires withA ==> |text| > 10 && text[10] == 'a'
    ensures MatchAt(optional, text, 10)
  {
    OptionalMatch('a', ml, text, 10, withA);
  }

  lemma LetterStep(optional: string, y: string, text: string)
    requires y == "y" + optional && optional != [] && optional[0] != '?'
    requires |text| > 9 && text[9] == 'y' && MatchAt(optional, text, 10)
    ensures MatchAt(y, text, 9)
  {
    assert CharMatches("y"[0], text[9 + 0]);
    PrefixMatch("y", optional, text, 9);
  }

  lemma EscapeStep(y: string, escaped: string, text: string)
    requires escaped == ['\\', '.'] + y && y != [] && y[0] != '?'
    requires |text| > 8 && text[8] == '.' && MatchAt(y, text, 9)
    ensures MatchAt(escaped, text, 8)
  {
    EscapeMatch('.', y, text, 8);
  }

  lemma SecretsStep(escaped: string, text: string)
    requires escaped != [] && escaped[0] != '?'
    requires |text| >= 8 && text[1..8] == "secrets" && MatchAt(escaped, text, 8)
    ensures MatchAt("secrets" + escaped, text, 1)
  {
    PlainAgrees("secrets", text, 1);
    PrefixMatch("secrets", escaped, text, 1);
  }

  /** With IGNORECASE the mixed-case entry `Util/PHP` does match lower-cased
      input. */
  lemma MixedCaseEntryMatches()
    ensures Search(BlockedPaths, "/util/php?")
  {
    assert Alternatives(BlockedPaths)[17] == "Util/PHP";
    UtilPhpMatches();
  }

  lemma UtilPhpMatches()
    ensures MatchAt("Util/PHP", "/util/php?", 1)
  {
    var src, text := "Util/PHP", "/util/php?";
    assert PlainText(src);
    assert forall k :: 0 <= k < |src| ==> LowerChar(text[1 + k]) == LowerChar(src[k]);
    PlainMatch(src, text, 1);
  }
}
