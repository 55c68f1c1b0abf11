/** The flat-JSON scanning of the firmware's settings code: extractJson,
    which cuts the JSON object out of the modem's HTTP reply, and the
    `update...IfExists` helpers, which look a key up by plain text search and
    read the value after it. */
module DeviceJson {
  import opened Text
  import opened ArduinoString

  // ------------------------------------------------------- extractJson

  /** extractJson: the text from the first '{' to the last '}' of the HTTP
      reply, or "" when either brace is missing. When the last '}' comes
      before the first '{', String::substring swaps its bounds. */
  function ExtractJson(response: string): (r: string)
    ensures '{' !in response || '}' !in response ==> r == ""
    ensures Fits(response) && '{' in response && '}' in response ==>
      var i := FirstIndexOf(response, '{');
      var j := LastIndexOf(response, '}');
      (i <= j ==> r == response[i..j + 1]) && (j < i ==> r == response[j + 1..i])
  {
    IndexOfCharFirst(response, '{');
    var jsonStart := IndexOfChar(response, '{', 0);
    var jsonEnd := LastIndexOf(response, '}');
    if jsonStart == -1 || jsonEnd == -1 then "" else Substring(response, jsonStart, jsonEnd + 1)
  }

  /** Whatever the modem prints around the body, a reply holding one JSON
      object, with no '{' before it and no '}' after it, yields that object. */
  lemma ExtractJsonOfReply(pre: string, body: string, post: string)
    requires '{' !in pre && '}' !in post
    requires |body| >= 2 && body[0] == '{' && body[|body| - 1] == '}'
    requires Fits(pre + body + post)
    ensures ExtractJson(pre + body + post) == body
  {
    var s := pre + body + post;
    assert s[|pre|] == '{' && s[|pre| + |body| - 1] == '}';
    var i := FirstIndexOf(s, '{');
    var j := LastIndexOf(s, '}');
    assert i == |pre| by {
      assert forall k :: 0 <= k < |pre| ==> s[k] == pre[k];
    }
    assert j == |pre| + |body| - 1 by {
      assert forall k :: |pre| + |body| <= k < |s| ==> s[k] == post[k - |pre| - |body|];
    }
    assert s[i..j + 1] == body;
  }

  // ----------------------------------------------------- key updaters

  /** The integer of updateIntIfExists, read from valueStart to the next ','
      or, failing that, the next '}' (to the end when there is neither). */
  function IntAt(json: string, valueStart: nat): int
  {
    var comma := IndexOfChar(json, ',', valueStart);
    var valueEnd := if comma == -1 then IndexOfChar(json, '}', valueStart) else comma;
    ToInt(Substring(json, valueStart, valueEnd))
  }

  /** The boolean of updateBoolIfExists: whether "true" occurs among the five
      characters from valueStart. */
  function BoolAt(json: string, valueStart: nat): bool
  {
    IndexOf(Substring(json, valueStart, valueStart + 5), "true", 0) != -1
  }

  /** The string of updateStringIfExists: from valueStart up to the first
      quote found from searchFrom on, if there is one. */
  function StringAt(json: string, valueStart: nat, searchFrom: nat): Option<string>
  {
    var valueEnd := IndexOfChar(json, '"', searchFrom);
    if valueEnd == -1 then None else Some(Substring(json, valueStart, valueEnd))
  }

  /** The shape every update...IfExists helper shares: the field keeps its
      value when the key does not occur, and is otherwise read by `read`
      where the first occurrence of the key ends. */
  function UpdateIfExists<T>(json: string, key: string, current: T, read: (string, nat) -> T): T
  {
    var pos := IndexOf(json, key, 0);
    if pos == -1 then current else read(json, pos + |key|)
  }

  /** A key that occurs is read where its first occurrence ends. */
  lemma FoundKeyRead<T>(json: string, key: string, p: nat, current: T, read: (string, nat) -> T)
    requires IndexOf(json, key, 0) == p
    ensures UpdateIfExists(json, key, current, read) == read(json, p + |key|)
  {
  }

  /** A key the document does not contain is not found. */
  lemma AbsentKeyNotFound(json: string, key: string)
    ensures !Contains(json, key) ==> IndexOf(json, key, 0) == -1
  {
    if key == [] {
      assert OccursAt(json, key, 0);
    } else {
      IndexOfFindsContained(json, key);
    }
  }

  /** updateIntIfExists */
  function UpdateInt(json: string, key: string, current: int): (r: int)
    ensures !Contains(json, key) ==> r == current
  {
    AbsentKeyNotFound(json, key);
    UpdateIfExists(json, key, current, IntAt)
  }

  /** updateBoolIfExists */
  function UpdateBool(json: string, key: string, current: bool): (r: bool)
    ensures !Contains(json, key) ==> r == current
  {
    AbsentKeyNotFound(json, key);
    UpdateIfExists(json, key, current, BoolAt)
  }


  /** updateStringIfExists as the firmware has it: the value starts one past
      the key (after the opening quote), but the closing quote is searched
      from one character further on. */
  function UpdateStringAsWritten(json: string, key: string, current: string): (r: string)
    ensures !Contains(json, key) ==> r == current
  {
    AbsentKeyNotFound(json, key);
    match UpdateIfExists(json, key, None, QuotedAsWritten)
    case None => current
    case Some(v) => v
  }

  function QuotedAsWritten(json: string, keyEnd: nat): Option<string>
  {
    StringAt(json, keyEnd + 1, keyEnd + 2)
  }

  /** updateStringIfExists with the closing quote searched from the first
      character of the value, so that an empty string value reads as "". */
  function UpdateString(json: string, key: string, current: string): (r: string)
    ensures !Contains(json, key) ==> r == current
  {
    AbsentKeyNotFound(json, key);
    match UpdateIfExists(json, key, None, Quoted)
    case None => current
    case Some(v) => v
  }

  function Quoted(json: string, keyEnd: nat): Option<string>
  {
    StringAt(json, keyEnd + 1, keyEnd + 1)
  }

  /** A key that does not occur in the document leaves its field alone, for
      every kind of field. */
  lemma AbsentKeyKeepsValue(json: string, key: string, i: int, b: bool, t: string)
    requires key != [] && !Contains(json, key)
    ensures UpdateInt(json, key, i) == i
    ensures UpdateBool(json, key, b) == b
    ensures UpdateString(json, key, t) == t
    ensures UpdateStringAsWritten(json, key, t) == t
  {
  }

  /** Once the key occurs, the previous value of the field plays no part, so
      applying an updater to its own result changes nothing. */
  lemma UpdateIdempotent(json: string, key: string, i: int, b: bool, t: string)
    ensures UpdateInt(json, key, UpdateInt(json, key, i)) == UpdateInt(json, key, i)
    ensures UpdateBool(json, key, UpdateBool(json, key, b)) == UpdateBool(json, key, b)
    ensures UpdateString(json, key, UpdateString(json, key, t)) == UpdateString(json, key, t)
  {
  }

  /** The slice that toInt() reads starts with the number's text and stops
      at a non-digit or at the end. */
  lemma {:induction false} IntSliceValue(s: string, vs: nat, n: int, tail: string, e: int)
    requires vs <= |s| && s[vs..] == IntToString(n) + tail
    requires tail == [] || !IsDigit(tail[0])
    requires vs + |IntToString(n)| <= e <= |s|
    ensures ToInt(s[vs..e]) == n
  {
    var d := IntToString(n);
    var k := e - vs - |d|;
    assert s[vs..e] == d + tail[..k];
    ToIntOfIntToString(n, tail[..k]);
  }

  /** The decimal text of a number: no ',' and no '}' in it. */
  lemma IntTextHasNoDelimiter(n: int)
    ensures forall k :: 0 <= k < |IntToString(n)| ==> IntToString(n)[k] != ',' && IntToString(n)[k] != '}'
  {
    if n < 0 {
      var d := NatToString(-n);
      assert forall k :: 1 <= k < |IntToString(n)| ==> IntToString(n)[k] == d[k - 1];
    }
  }

  /** The number's text followed by a non-digit reads as the number,
      wherever the scan for ',' or '}' ends. */
  lemma {:induction false} IntAtValue(json: string, vs: nat, n: int, tail: string)
    requires Fits(json) && vs <= |json|
    requires json[vs..] == IntToString(n) + tail
    requires tail == [] || !IsDigit(tail[0])
    ensures IntAt(json, vs) == n
  {
    var d := IntToString(n);
    IntTextHasNoDelimiter(n);
    assert forall k :: vs <= k < vs + |d| ==> json[k] == d[k - vs];
    var comma := IndexOfChar(json, ',', vs);
    var brace := IndexOfChar(json, '}', vs);
    if comma != -1 {
      assert vs + |d| <= comma;
      assert IntAt(json, vs) == ToInt(json[vs..comma]);
      IntSliceValue(json, vs, n, tail, comma);
    } else if brace != -1 {
      assert vs + |d| <= brace;
      assert IntAt(json, vs) == ToInt(json[vs..brace]);
      IntSliceValue(json, vs, n, tail, brace);
    } else {
      assert IntAt(json, vs) == ToInt(json[vs..|json|]);
      IntSliceValue(json, vs, n, tail, |json|);
    }
  }

  /** An integer the server writes after the first occurrence of its key
      (`"key":-12,` or `"key":7}`) is the integer the field receives. */
  lemma IntValueRead(json: string, key: string, p: nat, n: int, tail: string, current: int)
    requires Fits(json) && IndexOf(json, key, 0) == p
    requires json[p + |key|..] == IntToString(n) + tail
    requires tail == [] || !IsDigit(tail[0])
    ensures UpdateInt(json, key, current) == n
  {
    FoundKeyRead(json, key, p, current, IntAt);
    IntAtValue(json, p + |key|, n, tail);
  }


  /** `true` after the key reads as true and `false` as false (a delimiter
      always follows a value inside the object). */
  lemma BoolValueRead(json: string, key: string, p: nat, b: bool, tail: string, current: bool)
    requires Fits(json) && IndexOf(json, key, 0) == p
    requires json[p + |key|..] == (if b then "true" else "false") + tail
    requires tail != []
    ensures UpdateBool(json, key, current) == b
  {
    FoundKeyRead(json, key, p, current, BoolAt);
    assert UpdateBool(json, key, current) == BoolAt(json, p + |key|);
    BoolAtValue(json, p + |key|, b, tail);
  }


  lemma {:induction false} BoolAtValue(json: string, vs: nat, b: bool, tail: string)
    requires Fits(json) && vs <= |json|
    requires json[vs..] == (if b then "true" else "false") + tail
    requires tail != []
    ensures BoolAt(json, vs) == b
  {
    var w := if b then "true" else "false";
    assert |json| >= vs + 5;
    var valStr := Substring(json, vs, vs + 5);
    assert valStr == json[vs..vs + 5];
    assert valStr == (w + tail)[..5] by {
      assert json[vs..vs + 5] == json[vs..][..5];
    }
    if b {
      assert valStr == "true" + [tail[0]];
      assert valStr[0..4] == "true";
      assert IndexOf(valStr, "true", 0) == 0;
    } else {
      assert valStr == "false";
      assert Find(valStr, "true", 2) == -1;
      assert valStr[1..5][0] != 't';
      assert Find(valStr, "true", 1) == -1;
      assert valStr[0..4][0] != 't';
      assert Find(valStr, "true", 0) == -1;
    }
  }

  /** A quoted value without quotes inside is read back whole. */
  lemma StringValueRead(json: string, key: string, p: nat, v: string, tail: string, current: string)
    requires Fits(json) && IndexOf(json, key, 0) == p
    requires json[p + |key|..] == "\"" + v + "\"" + tail
    requires '"' !in v
    ensures UpdateString(json, key, current) == v
    ensures v != "" ==> UpdateStringAsWritten(json, key, current) == v
  {
    var vs := p + |key| + 1;
    assert json[vs..] == v + "\"" + tail by {
      assert json[vs..] == json[p + |key|..][1..];
    }
    QuotedAt(json, vs, v, tail);
    FoundKeyRead(json, key, p, None, Quoted);
    FoundKeyRead(json, key, p, None, QuotedAsWritten);
  }

  /** What the firmware's scan makes of a quoted value: the value itself
      when it is not empty; for an empty one, the text from its closing
      quote to the next quote, or the current value when no quote follows. */
  lemma QuotedValueAsWritten(json: string, key: string, p: nat, v: string, tail: string, current: string)
    requires Fits(json) && IndexOf(json, key, 0) == p
    requires json[p + |key|..] == "\"" + v + "\"" + tail
    requires '"' !in v
    ensures v != "" ==> UpdateStringAsWritten(json, key, current) == v
    ensures v == "" ==>
      UpdateStringAsWritten(json, key, current) == if '"' in tail then "\"" + tail[..FirstIndexOf(tail, '"')] else current
  {
    if v == "" {
      assert json[p + |key|..] == "\"\"" + tail;
      EmptyStringMisread(json, key, p, tail, current);
    } else {
      StringValueRead(json, key, p, v, tail, current);
    }
  }

  /** Both the intended scan (from vs) and the firmware's (from vs + 1, when
      the value is not empty) stop at the closing quote. */
  lemma {:induction false} QuotedAt(json: string, vs: nat, v: string, tail: string)
    requires Fits(json) && vs <= |json|
    requires json[vs..] == v + "\"" + tail
    requires '"' !in v
    ensures StringAt(json, vs, vs) == Some(v)
    ensures v != "" ==> StringAt(json, vs, vs + 1) == Some(v)
  {
    assert forall k :: vs <= k < vs + |v| ==> json[k] == v[k - vs];
    assert json[vs + |v|] == '"';
    assert IndexOfChar(json, '"', vs) == vs + |v|;
    assert json[vs..vs + |v|] == v;
    if v != "" {
      assert IndexOfChar(json, '"', vs + 1) == vs + |v|;
    }
  }

  /** The firmware's search for the closing quote, started one past a
      quote at vs, runs on to the next quote after it. */
  lemma {:induction false} SearchPastQuote(json: string, vs: nat, tail: string)
    requires Fits(json) && vs <= |json| && json[vs..] == "\"" + tail
    ensures StringAt(json, vs, vs + 1) ==
      if '"' in tail then Some("\"" + tail[..FirstIndexOf(tail, '"')]) else None
  {
    assert forall k :: vs + 1 <= k < |json| ==> json[k] == tail[k - vs - 1];
    if '"' in tail {
      var q := FirstIndexOf(tail, '"');
      assert json[vs + 1 + q] == '"';
      assert IndexOfChar(json, '"', vs + 1) == vs + 1 + q;
      assert json[vs..vs + 1 + q] == "\"" + tail[..q];
    } else {
      assert IndexOfChar(json, '"', vs + 1) == -1;
    }
  }

  /** The empty string value is misread by the firmware's scan: it takes the
      closing quote as the first character of the value and runs on to the
      next quote in the document (or keeps the old value when there is none). */
  lemma EmptyStringMisread(json: string, key: string, p: nat, tail: string, current: string)
    requires Fits(json) && IndexOf(json, key, 0) == p
    requires json[p + |key|..] == "\"\"" + tail
    ensures UpdateStringAsWritten(json, key, current) ==
      if '"' in tail then "\"" + tail[..FirstIndexOf(tail, '"')] else current
  {
    var vs := p + |key| + 1;
    assert json[vs..] == "\"" + tail by {
      assert json[vs..] == json[p + |key|..][1..];
    }
    SearchPastQuote(json, vs, tail);
    FoundKeyRead(json, key, p, None, QuotedAsWritten);
  }
}
