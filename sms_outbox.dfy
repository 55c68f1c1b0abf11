/** The request body of `sendSmsToServer`: the messages read from the SIM
    card as one JSON array of `{"phone","message","timestamp"}` objects,
    which the server's `/sms-receive` route reads back as its items. The
    HTTP exchange over AT commands is not modelled. */
module SmsOutbox {
  import opened Text
  import opened Sim800Codecs
  import opened SmsInbox
  import SmsStore

  /** The object written for one message, in the three appends of the
      loop; the SIM index is not sent. */
  function ObjectJson(m: SmsMessage): string
  {
    "{\"phone\":\"" + Escape(m.phoneNumber) + "\","
      + "\"message\":\"" + Escape(m.message) + "\","
      + "\"timestamp\":\"" + Escape(m.timestamp) + "\"}"
  }

  /** The objects written for `ms`, in order. */
  function Objects(ms: seq<SmsMessage>): (objs: seq<string>)
    ensures |objs| == |ms|
  {
    if ms == [] then [] else [ObjectJson(ms[0])] + Objects(ms[1..])
  }

  /** The JSON array sent for `ms`. */
  function Batch(ms: seq<SmsMessage>): string
  {
    "[" + Join(Objects(ms), ",") + "]"
  }

  lemma {:induction false} JoinSnoc(parts: seq<string>, x: string)
    requires parts != []
    ensures Join(parts + [x], ",") == Join(parts, ",") + "," + x
    decreases |parts|
  {
    if |parts| == 1 {
      assert (parts + [x])[1..] == [x];
    } else {
      assert (parts + [x])[1..] == parts[1..] + [x];
      JoinSnoc(parts[1..], x);
      assert parts[0] + "," + (Join(parts[1..], ",") + "," + x) == (parts[0] + "," + Join(parts[1..], ",")) + "," + x;
    }
  }

  lemma {:induction false} ObjectsSnoc(ms: seq<SmsMessage>, m: SmsMessage)
    ensures Objects(ms + [m]) == Objects(ms) + [ObjectJson(m)]
    decreases |ms|
  {
    if ms == [] {
      assert [m][1..] == [];
    } else {
      assert (ms + [m])[1..] == ms[1..] + [m];
      ObjectsSnoc(ms[1..], m);
    }
  }

  lemma Regroup9(a: string, b: string, c: string, d: string, e: string, f: string, g: string, h: string, i: string)
    ensures a + b + c + d + e + f + g + h + i == (a + b + c) + (d + e + f) + (g + h + i)
  {
  }

  /** Appending one more part to a joined list. */
  lemma AppendPart(before: string, parts: seq<string>, x: string, after: string)
    requires before == "[" + Join(parts, ",")
    requires after == before + (if parts != [] then "," else "") + x
    ensures after == "[" + Join(parts + [x], ",")
  {
    if parts == [] {
      assert parts + [x] == [x];
    } else {
      JoinSnoc(parts, x);
    }
  }

  /** One turn of the loop appends the next object, after a comma unless
      it is the first. */
  lemma AppendObject(before: string, done: seq<SmsMessage>, m: SmsMessage, after: string)
    requires before == "[" + Join(Objects(done), ",")
    requires after == before + (if done != [] then "," else "") + ObjectJson(m)
    ensures after == "[" + Join(Objects(done + [m]), ",")
  {
    ObjectsSnoc(done, m);
    AppendPart(before, Objects(done), ObjectJson(m), after);
  }

  /** One turn of the loop: a comma unless it is the first object, then
      the object in three appends. */
  method AppendSmsObject(jsonData: string, i: nat, m: SmsMessage) returns (out: string)
    ensures out == jsonData + (if i > 0 then "," else "") + ObjectJson(m)
  {
    out := jsonData;
    if i > 0 {
      out := out + ",";
    }
    var separated := out;
    var escapedPhone := EscapeJson(m.phoneNumber);
    var escapedMessage := EscapeJson(m.message);
    var escapedTimestamp := EscapeJson(m.timestamp);
    var phonePart := "{\"phone\":\"" + escapedPhone + "\",";
    var messagePart := "\"message\":\"" + escapedMessage + "\",";
    var timestampPart := "\"timestamp\":\"" + escapedTimestamp + "\"}";
    out := out + phonePart;
    out := out + messagePart;
    out := out + timestampPart;
    assert out == separated + (phonePart + messagePart + timestampPart);
    Regroup9("{\"phone\":\"", escapedPhone, "\",", "\"message\":\"", escapedMessage, "\",",
             "\"timestamp\":\"", escapedTimestamp, "\"}");
  }

  /** The loop that builds the array, escaping each field with `escapeJson`. */
  method BuildSmsBatch(messages: seq<SmsMessage>) returns (jsonData: string)
    ensures jsonData == Batch(messages)
  {
    jsonData := "[";
    var i := 0;
    while i < |messages|
      invariant 0 <= i <= |messages|
      invariant jsonData == "[" + Join(Objects(messages[..i]), ",")
    {
      var before := jsonData;
      jsonData := AppendSmsObject(jsonData, i, messages[i]);
      AppendObject(before, messages[..i], messages[i], jsonData);
      assert messages[..i + 1] == messages[..i] + [messages[i]];
      i := i + 1;
    }
    jsonData := jsonData + "]";
    assert messages[..i] == messages;
  }

  /** What `sendSmsToServer` posts: nothing for an empty list (it returns
      success without a request), the array otherwise. */
  function RequestBody(messages: seq<SmsMessage>): (body: Option<string>)
    ensures body.None? <==> messages == []
    ensures body.Some? ==> |body.value| >= 2 && body.value[0] == '[' && body.value[|body.value| - 1] == ']'
  {
    if messages == [] then None else Some(Batch(messages))
  }

  // ------------------------------------------------- reading the array back

  /** The text after the literal `lit`, or None when `t` does not start
      with it. */
  function Expect(t: string, lit: string): (r: Option<string>)
    ensures r.Some? ==> t == lit + r.value
  {
    if |lit| <= |t| && t[..|lit|] == lit then Some(t[|lit|..]) else None
  }

  lemma ExpectPrefix(lit: string, rest: string)
    ensures Expect(lit + rest, lit) == Some(rest)
  {
    assert (lit + rest)[..|lit|] == lit;
    assert (lit + rest)[|lit|..] == rest;
  }

  /** Reads `lead`, then a JSON string; returns the string and what
      follows its closing quote. */
  function ReadMember(t: string, lead: string): (r: Option<(string, string)>)
    ensures r.Some? ==> |r.value.1| < |t|
  {
    match Expect(t, lead)
    case None => None
    case Some(u) => ReadString(u)
  }

  /** A member reads back as its value exactly when the value holds no
      bare control character. */
  lemma MemberRoundTrip(lead: string, value: string, rest: string)
    ensures ReadMember(lead + (Escape(value) + ("\"" + rest)), lead)
      == if NoBareControl(value) then Some((value, rest)) else None
  {
    ExpectPrefix(lead, Escape(value) + ("\"" + rest));
    assert Escape(value) + ("\"" + rest) == Escape(value) + "\"" + rest;
    EscapeRoundTrip(value, rest);
  }

  /** Reads one object with the three members in the order written. */
  function ReadObject(t: string): (r: Option<(SmsStore.SmsItem, string)>)
    ensures r.Some? ==> |r.value.1| < |t|
  {
    match ReadMember(t, "{\"phone\":\"")
    case None => None
    case Some((phone, u1)) =>
      match Expect(u1, ",")
      case None => None
      case Some(u2) =>
        match ReadMember(u2, "\"message\":\"")
        case None => None
        case Some((message, u3)) =>
          match Expect(u3, ",")
          case None => None
          case Some(u4) =>
            match ReadMember(u4, "\"timestamp\":\"")
            case None => None
            case Some((timestamp, u5)) =>
              match Expect(u5, "}")
              case None => None
              case Some(u6) => Some((SmsStore.SmsItem(phone, message, timestamp), u6))
  }

  /** The fields of a message survive the trip: none of them holds a bare
      control character. */
  predicate Clean(m: SmsMessage)
  {
    NoBareControl(m.phoneNumber) && NoBareControl(m.message) && NoBareControl(m.timestamp)
  }

  /** The item the server sees for a message. */
  function Sent(m: SmsMessage): (item: SmsStore.SmsItem)
    ensures item.phone == m.phoneNumber && item.message == m.message && item.timestamp == m.timestamp
  {
    SmsStore.SmsItem(m.phoneNumber, m.message, m.timestamp)
  }

  /** The object with its two-character closers split, grouped from the
      right as the reader consumes it. */
  lemma Regroup(a: string, p: string, b: string, q: string, c: string, r: string, rest: string)
    ensures a + p + ("\"" + ",") + b + q + ("\"" + ",") + c + r + ("\"" + "}") + rest
      == a + (p + ("\"" + ("," + (b + (q + ("\"" + ("," + (c + (r + ("\"" + ("}" + rest)))))))))))
  {
  }

  lemma ObjectRoundTrip(m: SmsMessage, rest: string)
    ensures ReadObject(ObjectJson(m) + rest) == if Clean(m) then Some((Sent(m), rest)) else None
  {
    var p := Escape(m.phoneNumber);
    var q := Escape(m.message);
    var r := Escape(m.timestamp);
    var tail3 := "\"timestamp\":\"" + (r + ("\"" + ("}" + rest)));
    var tail2 := "\"message\":\"" + (q + ("\"" + ("," + tail3)));
    assert ObjectJson(m) + rest == "{\"phone\":\"" + (p + ("\"" + ("," + tail2))) by {
      assert "\"," == "\"" + ",";
      assert "\"}" == "\"" + "}";
      Regroup("{\"phone\":\"", p, "\"message\":\"", q, "\"timestamp\":\"", r, rest);
    }
    MemberRoundTrip("{\"phone\":\"", m.phoneNumber, "," + tail2);
    ExpectPrefix(",", tail2);
    MemberRoundTrip("\"message\":\"", m.message, "," + tail3);
    ExpectPrefix(",", tail3);
    MemberRoundTrip("\"timestamp\":\"", m.timestamp, "}" + rest);
    ExpectPrefix("}", rest);
  }

  /** Reads comma-separated objects, at least one. */
  function ReadItems(t: string): (r: Option<(seq<SmsStore.SmsItem>, string)>)
    ensures r.Some? ==> |r.value.1| < |t|
    decreases |t|
  {
    match ReadObject(t)
    case None => None
    case Some((item, u)) =>
      if u != [] && u[0] == ',' then
        match ReadItems(u[1..])
        case None => None
        case Some((items, v)) => Some(([item] + items, v))
      else Some(([item], u))
  }

  /** Reads the whole body as the server's JSON list of items. */
  function ReadBatch(t: string): Option<seq<SmsStore.SmsItem>>
  {
    if t == "[]" then Some([])
    else if t == [] || t[0] != '[' then None
    else
      match ReadItems(t[1..])
      case None => None
      case Some((items, u)) => if u == "]" then Some(items) else None
  }

  predicate AllClean(ms: seq<SmsMessage>)
  {
    forall i :: 0 <= i < |ms| ==> Clean(ms[i])
  }

  function SentAll(ms: seq<SmsMessage>): (items: seq<SmsStore.SmsItem>)
    ensures |items| == |ms|
    ensures forall i :: 0 <= i < |ms| ==> items[i] == Sent(ms[i])
  {
    if ms == [] then [] else [Sent(ms[0])] + SentAll(ms[1..])
  }

  /** A list of two or more parts is its first part, a comma and the
      rest. */
  lemma JoinCons(parts: seq<string>, rest: string)
    requires |parts| > 1
    ensures Join(parts, ",") + rest == parts[0] + ("," + (Join(parts[1..], ",") + rest))
  {
  }

  lemma {:induction false} ItemsRoundTrip(ms: seq<SmsMessage>, rest: string)
    requires ms != [] && (rest == [] || rest[0] != ',')
    ensures ReadItems(Join(Objects(ms), ",") + rest) == if AllClean(ms) then Some((SentAll(ms), rest)) else None
    decreases |ms|
  {
    assert AllClean(ms) <==> Clean(ms[0]) && AllClean(ms[1..]) by {
      assert forall i :: 1 <= i < |ms| ==> ms[i] == ms[1..][i - 1];
    }
    var objs := Objects(ms);
    assert objs[0] == ObjectJson(ms[0]) && objs[1..] == Objects(ms[1..]);
    if |ms| == 1 {
      assert Join(objs, ",") == ObjectJson(ms[0]);
      ObjectRoundTrip(ms[0], rest);
      assert SentAll(ms) == [Sent(ms[0])];
    } else {
      var tail := Join(Objects(ms[1..]), ",") + rest;
      JoinCons(objs, rest);
      ObjectRoundTrip(ms[0], "," + tail);
      assert ("," + tail)[1..] == tail;
      ItemsRoundTrip(ms[1..], rest);
    }
  }

  /** The server reads the array back as the messages' phone, text and
      time, in order, exactly when no field holds a bare control
      character; otherwise the body is not valid JSON. */
  lemma BatchRoundTrip(ms: seq<SmsMessage>)
    ensures ReadBatch(Batch(ms)) == if AllClean(ms) then Some(SentAll(ms)) else None
  {
    if ms != [] {
      var inner := Join(Objects(ms), ",");
      assert |inner| > 0 by {
        JoinLength(Objects(ms));
        assert |ObjectJson(ms[0])| > 0;
      }
      ReadBracketed(inner);
      ItemsRoundTrip(ms, "]");
    }
  }

  // --------------------------------------------- the server's UTF-8 read

  /** What `/sms-receive` makes of a request body: the framework decodes
      the bytes as UTF-8, then reads the JSON list of items from the text.
      A body that does not decode is refused (400). */
  function Received(body: string): Option<seq<SmsStore.SmsItem>>
  {
    match Utf8Text(body)
    case None => None
    case Some(t) => ReadBatch(t)
  }

  /** Every field of the message is well-formed UTF-8. */
  predicate Decodes(m: SmsMessage)
  {
    Utf8Text(m.phoneNumber).Some? && Utf8Text(m.message).Some? && Utf8Text(m.timestamp).Some?
  }

  /** The message with each field read as the text its bytes encode. */
  function DecodedMessage(m: SmsMessage): SmsMessage
    requires Decodes(m)
  {
    SmsMessage(Utf8Text(m.phoneNumber).value, Utf8Text(m.message).value, Utf8Text(m.timestamp).value, m.index)
  }

  predicate AllDecode(ms: seq<SmsMessage>)
  {
    forall i :: 0 <= i < |ms| ==> Decodes(ms[i])
  }

  function DecodedAll(ms: seq<SmsMessage>): (ds: seq<SmsMessage>)
    requires AllDecode(ms)
    ensures |ds| == |ms| && forall i :: 0 <= i < |ms| ==> ds[i] == DecodedMessage(ms[i])
  {
    seq(|ms|, i requires 0 <= i < |ms| => DecodedMessage(ms[i]))
  }

  /** A literal, an escaped field and a text that starts with an ASCII
      character decode piece by piece. */
  lemma FieldText(lit: string, f: string, rest: string)
    requires Utf8Text(lit) == Some(lit) && rest != [] && (rest[0] as int) < 0x80
    ensures Utf8Text(f).None? ==> Utf8Text(lit + Escape(f) + rest).None?
    ensures Utf8Text(f).Some? && Utf8Text(rest).None? ==> Utf8Text(lit + Escape(f) + rest).None?
    ensures Utf8Text(f).Some? && Utf8Text(rest).Some? ==>
      Utf8Text(lit + Escape(f) + rest) == Some(lit + Escape(Utf8Text(f).value) + Utf8Text(rest).value)
  {
    var e := Escape(f);
    EscapeText(f);
    AppendAssoc(lit, e, rest);
    if Utf8Text(f).None? {
      TextAppendBad(e, rest);
    } else {
      TextAppend(e, rest);
    }
    TextAppend(lit, e + rest);
    if Utf8Text(f).Some? && Utf8Text(rest).Some? {
      AppendAssoc(lit, Escape(Utf8Text(f).value), Utf8Text(rest).value);
    }
  }

  /** An object followed by more text, grouped field by field. */
  lemma ObjectLayout(a: string, p: string, x: string, b: string, q: string, c: string, r: string, y: string, rest: string)
    ensures a + p + x + b + q + x + c + r + y + rest == a + p + ((x + b) + q + ((x + c) + r + (y + rest)))
  {
  }

  /** An object decodes exactly when its three fields do, to the object
      written for the decoded message. */
  lemma ObjectText(m: SmsMessage, rest: string)
    ensures !Decodes(m) ==> Utf8Text(ObjectJson(m) + rest).None?
    ensures Decodes(m) && Utf8Text(rest).None? ==> Utf8Text(ObjectJson(m) + rest).None?
    ensures Decodes(m) && Utf8Text(rest).Some? ==>
      Utf8Text(ObjectJson(m) + rest) == Some(ObjectJson(DecodedMessage(m)) + Utf8Text(rest).value)
  {
    var a, x, b, c, y := "{\"phone\":\"", "\",", "\"message\":\"", "\"timestamp\":\"", "\"}";
    assert Ascii(a) && Ascii(x + b) && Ascii(x + c) && Ascii(y);
    AsciiText(a);
    AsciiText(x + b);
    AsciiText(x + c);
    AsciiText(y);
    ObjectLayout(a, Escape(m.phoneNumber), x, b, Escape(m.message), c, Escape(m.timestamp), y, rest);
    ThreeFieldsText(a, x + b, x + c, y, m.phoneNumber, m.message, m.timestamp, rest);
    if Decodes(m) && Utf8Text(rest).Some? {
      var d := DecodedMessage(m);
      ObjectLayout(a, Escape(d.phoneNumber), x, b, Escape(d.message), c, Escape(d.timestamp), y, Utf8Text(rest).value);
    }
  }

  /** A literal the writer puts between fields: it starts with an ASCII
      character and decodes to itself. */
  predicate Literal(s: string)
  {
    s != [] && (s[0] as int) < 0x80 && Utf8Text(s) == Some(s)
  }

  /** Three escaped fields between literals decode exactly when the
      fields and the text after them do. */
  lemma ThreeFieldsText(a: string, b: string, c: string, y: string, p: string, q: string, r: string, rest: string)
    requires Literal(a) && Literal(b) && Literal(c) && Literal(y)
    ensures !(Utf8Text(p).Some? && Utf8Text(q).Some? && Utf8Text(r).Some? && Utf8Text(rest).Some?) ==>
      Utf8Text(a + Escape(p) + (b + Escape(q) + (c + Escape(r) + (y + rest)))).None?
    ensures Utf8Text(p).Some? && Utf8Text(q).Some? && Utf8Text(r).Some? && Utf8Text(rest).Some? ==>
      Utf8Text(a + Escape(p) + (b + Escape(q) + (c + Escape(r) + (y + rest))))
        == Some(a + Escape(Utf8Text(p).value) + (b + Escape(Utf8Text(q).value)
          + (c + Escape(Utf8Text(r).value) + (y + Utf8Text(rest).value))))
  {
    if Utf8Text(p).Some? && Utf8Text(q).Some? && Utf8Text(r).Some? && Utf8Text(rest).Some? {
      ThreeFieldsGood(a, b, c, y, p, q, r, rest);
    } else {
      ThreeFieldsBad(a, b, c, y, p, q, r, rest);
    }
  }

  /** One field, or the text after them, that does not decode spoils the
      whole. */
  lemma ThreeFieldsBad(a: string, b: string, c: string, y: string, p: string, q: string, r: string, rest: string)
    requires Literal(a) && Literal(b) && Literal(c) && Literal(y)
    requires Utf8Text(p).None? || Utf8Text(q).None? || Utf8Text(r).None? || Utf8Text(rest).None?
    ensures Utf8Text(a + Escape(p) + (b + Escape(q) + (c + Escape(r) + (y + rest)))).None?
  {
    var x3 := c + Escape(r) + (y + rest);
    assert x3[0] == c[0];
    if Utf8Text(r).None? || Utf8Text(rest).None? {
      TwoFieldsBad(c, y, r, rest);
      LaterFieldBad(a, b, p, q, x3);
    } else if Utf8Text(q).None? {
      MiddleFieldBad(a, b, p, q, x3);
    } else {
      FirstFieldBad(a, b, p, q, x3);
    }
  }

  /** Three fields that decode, followed by a text that decodes. */
  lemma ThreeFieldsGood(a: string, b: string, c: string, y: string, p: string, q: string, r: string, rest: string)
    requires Utf8Text(a) == Some(a) && Utf8Text(b) == Some(b) && Utf8Text(c) == Some(c) && Utf8Text(y) == Some(y)
    requires Utf8Text(p).Some? && Utf8Text(q).Some? && Utf8Text(r).Some? && Utf8Text(rest).Some?
    ensures Utf8Text(a + Escape(p) + (b + Escape(q) + (c + Escape(r) + (y + rest))))
        == Some(a + Escape(Utf8Text(p).value) + (b + Escape(Utf8Text(q).value)
          + (c + Escape(Utf8Text(r).value) + (y + Utf8Text(rest).value))))
  {
    EscapeDecodes(p);
    EscapeDecodes(q);
    EscapeDecodes(r);
    PiecesText(a, Escape(p), b, Escape(q), c, Escape(r), y, rest,
      a, Escape(Utf8Text(p).value), b, Escape(Utf8Text(q).value), c, Escape(Utf8Text(r).value), y, Utf8Text(rest).value);
  }

  /** The last field, or the text after the closing literal, spoils the
      tail when it does not decode. */
  lemma TwoFieldsBad(c: string, y: string, r: string, rest: string)
    requires Literal(c) && Literal(y) && (Utf8Text(r).None? || Utf8Text(rest).None?)
    ensures Utf8Text(c + Escape(r) + (y + rest)).None?
  {
    TextAppend(y, rest);
    FieldText(c, r, y + rest);
  }

  /** A tail that does not decode spoils the two fields before it. */
  lemma LaterFieldBad(a: string, b: string, p: string, q: string, x3: string)
    requires Literal(a) && Literal(b) && x3 != [] && (x3[0] as int) < 0x80 && Utf8Text(x3).None?
    ensures Utf8Text(a + Escape(p) + (b + Escape(q) + x3)).None?
  {
    var x2 := b + Escape(q) + x3;
    FieldText(b, q, x3);
    assert x2[0] == b[0];
    FieldText(a, p, x2);
  }

  /** A middle field that does not decode spoils the whole. */
  lemma MiddleFieldBad(a: string, b: string, p: string, q: string, x3: string)
    requires Literal(a) && Literal(b) && x3 != [] && (x3[0] as int) < 0x80 && Utf8Text(q).None?
    ensures Utf8Text(a + Escape(p) + (b + Escape(q) + x3)).None?
  {
    var x2 := b + Escape(q) + x3;
    FieldText(b, q, x3);
    assert x2[0] == b[0];
    FieldText(a, p, x2);
  }

  /** A first field that does not decode spoils the whole. */
  lemma FirstFieldBad(a: string, b: string, p: string, q: string, x3: string)
    requires Literal(a) && Literal(b) && Utf8Text(p).None?
    ensures Utf8Text(a + Escape(p) + (b + Escape(q) + x3)).None?
  {
    var x2 := b + Escape(q) + x3;
    assert x2[0] == b[0];
    FieldText(a, p, x2);
  }

  /** A field that decodes still decodes once escaped. */
  lemma EscapeDecodes(p: string)
    requires Utf8Text(p).Some?
    ensures Utf8Text(Escape(p)) == Some(Escape(Utf8Text(p).value))
  {
    EscapeText(p);
  }

  /** Seven pieces and a rest that decode give a whole that decodes piece
      by piece. */
  lemma PiecesText(a: string, p: string, b: string, q: string, c: string, r: string, y: string, rest: string,
                   a': string, p': string, b': string, q': string, c': string, r': string, y': string, rest': string)
    requires Utf8Text(a) == Some(a') && Utf8Text(p) == Some(p') && Utf8Text(b) == Some(b') && Utf8Text(q) == Some(q')
    requires Utf8Text(c) == Some(c') && Utf8Text(r) == Some(r') && Utf8Text(y) == Some(y') && Utf8Text(rest) == Some(rest')
    ensures Utf8Text(a + p + (b + q + (c + r + (y + rest)))) == Some(a' + p' + (b' + q' + (c' + r' + (y' + rest'))))
  {
    TextAppend(y, rest);
    TextAppend(c, r);
    TextAppend(c + r, y + rest);
    TextAppend(b, q);
    TextAppend(b + q, c + r + (y + rest));
    TextAppend(a, p);
    TextAppend(a + p, b + q + (c + r + (y + rest)));
  }

  /** The joined objects decode exactly when every message does. */
  lemma {:induction false} ItemsText(ms: seq<SmsMessage>, rest: string)
    requires ms != []
    ensures !AllDecode(ms) ==> Utf8Text(Join(Objects(ms), ",") + rest).None?
    ensures AllDecode(ms) && Utf8Text(rest).None? ==> Utf8Text(Join(Objects(ms), ",") + rest).None?
    ensures AllDecode(ms) && Utf8Text(rest).Some? ==>
      Utf8Text(Join(Objects(ms), ",") + rest) == Some(Join(Objects(DecodedAll(ms)), ",") + Utf8Text(rest).value)
    decreases |ms|
  {
    AllDecodeCons(ms);
    var objs := Objects(ms);
    assert objs[0] == ObjectJson(ms[0]) && objs[1..] == Objects(ms[1..]);
    if |ms| == 1 {
      assert Join(objs, ",") == ObjectJson(ms[0]);
      ObjectText(ms[0], rest);
      if AllDecode(ms) {
        assert DecodedAll(ms) == [DecodedMessage(ms[0])];
      }
    } else {
      var tail := Join(Objects(ms[1..]), ",") + rest;
      JoinCons(objs, rest);
      ItemsText(ms[1..], rest);
      AsciiText(",");
      TextAppend(",", tail);
      ObjectText(ms[0], "," + tail);
      if AllDecode(ms) && Utf8Text(rest).Some? {
        JoinCons(Objects(DecodedAll(ms)), Utf8Text(rest).value);
      }
    }
  }

  /** The messages decode exactly when the first and the rest do. */
  lemma AllDecodeCons(ms: seq<SmsMessage>)
    requires ms != []
    ensures AllDecode(ms) <==> Decodes(ms[0]) && AllDecode(ms[1..])
    ensures AllDecode(ms) ==> DecodedAll(ms)[0] == DecodedMessage(ms[0]) && DecodedAll(ms)[1..] == DecodedAll(ms[1..])
  {
    assert forall i :: 1 <= i < |ms| ==> ms[i] == ms[1..][i - 1];
  }

  /** The body decodes exactly when every field does, to the body written
      for the decoded messages. */
  lemma BatchText(ms: seq<SmsMessage>)
    ensures Utf8Text(Batch(ms)) == if AllDecode(ms) then Some(Batch(DecodedAll(ms))) else None
  {
    if ms == [] {
      assert Batch(ms) == "[]";
      AsciiText("[]");
      assert DecodedAll(ms) == [];
    } else {
      var inner := Join(Objects(ms), ",");
      assert Batch(ms) == "[" + (inner + "]");
      AsciiText("]");
      ItemsText(ms, "]");
      AsciiText("[");
      TextAppend("[", inner + "]");
      if AllDecode(ms) {
        assert Batch(DecodedAll(ms)) == "[" + (Join(Objects(DecodedAll(ms)), ",") + "]");
      }
    }
  }

  /** The server reads the body as the messages' phone, text and time,
      decoded from UTF-8, in order, exactly when every field is well-formed
      UTF-8 and no decoded field holds a control character other than those
      escaped; otherwise it refuses the body. */
  lemma BatchReceived(ms: seq<SmsMessage>)
    ensures Received(Batch(ms)) ==
      if AllDecode(ms) && AllClean(DecodedAll(ms)) then Some(SentAll(DecodedAll(ms))) else None
  {
    BatchText(ms);
    if AllDecode(ms) {
      BatchRoundTrip(DecodedAll(ms));
    }
  }

  /** One message whose text, after a well-formed start, holds bytes that
      RFC 3629 rejects makes the server refuse the whole batch. */
  lemma IllFormedTextLosesBatch(ms: seq<SmsMessage>, i: int, before: string, bad: string)
    requires 0 <= i < |ms| && Utf8Text(before).Some? && Utf8Decode(bad) == None
    requires ms[i].message == before + bad
    ensures Received(Batch(ms)) == None
  {
    TextIsDecode(bad);
    TextAppend(before, bad);
    assert !Decodes(ms[i]);
    BatchReceived(ms);
  }

  /** One message whose text carries half of a surrogate pair, as
      `decodeUcs2` writes any character outside the Basic Multilingual
      Plane, makes the strict read refuse the whole batch. */
  lemma SurrogateLosesBatch(ms: seq<SmsMessage>, i: int, before: string, code: nat, after: string)
    requires 0 <= i < |ms| && Utf8Text(before).Some? && IsSurrogate(code)
    requires ms[i].message == before + (Utf8Of(code) + after)
    ensures Received(Batch(ms)) == None
  {
    SurrogateIsIllFormed(code, after);
    IllFormedTextLosesBatch(ms, i, before, Utf8Of(code) + after);
  }

  /** One message whose body held the group `-001` makes the server refuse
      the whole batch. */
  lemma MinusOneGroupLosesBatch(ms: seq<SmsMessage>, i: int, before: string, after: string)
    requires 0 <= i < |ms| && Utf8Text(before).Some?
    requires ms[i].message == before + (GroupBytes("-001") + after)
    ensures Received(Batch(ms)) == None
  {
    MinusOneGroupIllFormed(after);
    IllFormedTextLosesBatch(ms, i, before, GroupBytes("-001") + after);
  }

  /** A non-empty text between brackets is read as the items it starts
      with, when only the closing bracket follows them. */
  lemma ReadBracketed(inner: string)
    requires |inner| > 0
    ensures ReadBatch("[" + inner + "]") == match ReadItems(inner + "]")
      case None => None
      case Some((items, u)) => if u == "]" then Some(items) else None
  {
    var t := "[" + inner + "]";
    assert |t| == |inner| + 2;
    assert t[0] == '[' && t[1..] == inner + "]";
  }

  lemma {:induction false} JoinLength(parts: seq<string>)
    requires parts != []
    ensures |Join(parts, ",")| >= |parts[0]|
  {
  }
}
