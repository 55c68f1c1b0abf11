/** The firmware's SMS path: `getNewSms` reads the module's reply to
    `AT+CMGL` (3GPP TS 27.005 section 3.4.2) into messages, and
    `sendSmsToServer` writes them as the JSON array the server's
    `/sms-receive` route reads. The AT exchange itself is not modelled: the
    reply text and the clock reading that `getCurrentDateTime` would give
    are parameters. */
module SmsInbox {
  import opened Text
  import opened ArduinoString
  import opened Sim800Codecs

  /** `SmsMessage` of Sim800lClient.h. */
  datatype SmsMessage = SmsMessage(phoneNumber: string, message: string, timestamp: string, index: int)

  /** The listing command for `smsReadMode`: unread messages for `NEW`,
      every stored message otherwise. */
  function ReadCommand(smsReadMode: string): (cmd: string)
    ensures smsReadMode == "NEW" <==> cmd == "AT+CMGL=\"REC UNREAD\""
    ensures smsReadMode != "NEW" <==> cmd == "AT+CMGL=\"ALL\""
  {
    if smsReadMode == "NEW" then "AT+CMGL=\"REC UNREAD\"" else "AT+CMGL=\"ALL\""
  }

  // ------------------------------------------------------------ the header
  // A one-character String pattern is searched like that character
  // (ArduinoString.IndexOfOneChar), so `indexOf("\"", i)` and
  // `indexOf(",", i)` are written with IndexOfChar.

  /** No phone number yet: the empty text, or the lone comma that the quote
      search below finds between the status and the number. */
  predicate Blank(p: string)
  {
    p == "" || p == ","
  }

  /** The closing quote of the status field: the second quote at or after
      the first comma, or -1. */
  function StatusEnd(header: string, commaPos: nat): (e: int)
    ensures e == -1 || (commaPos < e < |header| && header[e] == '"')
  {
    var q := IndexOfChar(header, '"', commaPos);
    if q == -1 then -1 else IndexOfChar(header, '"', q + 1)
  }

  /** The first guess at the number: the text between the quote found from
      `statusEnd` and the next quote. As the search starts ON the closing
      quote of the status, this is the text between the status and the
      number: `,` for a reply in the standard layout. */
  function QuotedPhone(header: string, statusEnd: int): string
    requires statusEnd >= -1
  {
    if statusEnd == -1 then ""
    else
      var q := IndexOfChar(header, '"', statusEnd);
      if q == -1 then ""
      else
        var e := IndexOfChar(header, '"', q + 1);
        if e == -1 then "" else Substring(header, q + 1, e)
  }

  /** The first run of decimal digits anywhere in the header, or "". */
  function FirstDigitRun(header: string): (run: string)
    ensures AllDigits(run)
    ensures run == "" ==> forall i :: 0 <= i < |header| ==> !IsDigit(header[i])
  {
    if header == [] then ""
    else if IsDigit(header[0]) then LeadingDigits(header)
    else FirstDigitRun(header[1..])
  }

  /** The second guess: the field between the comma after the status and
      the next comma, without quotes, commas and surrounding white space;
      when that is blank, the first digit run of the header. `current` is
      kept when there is no such field. */
  function DelimitedPhone(header: string, commaPos: nat, statusEnd: int, current: string): string
    requires statusEnd >= -1
  {
    var afterStatus := if statusEnd != -1 then statusEnd + 1 else commaPos + 1;
    var phoneStart := IndexOfChar(header, ',', afterStatus) + 1;
    if phoneStart > 0 && phoneStart < |header| then FieldPhone(header, phoneStart, current) else current
  }

  /** The field from `phoneStart` to the next comma (or the end), cleaned;
      `current` when it is empty. */
  function FieldPhone(header: string, phoneStart: nat, current: string): string
  {
    var e := IndexOfChar(header, ',', phoneStart);
    var phoneEnd := if e == -1 then |header| else e;
    if phoneEnd > phoneStart then CleanedPhone(header, Substring(header, phoneStart, phoneEnd)) else current
  }

  /** The field without quotes, commas and surrounding white space, or the
      first digit run of the header when that leaves it blank. */
  function CleanedPhone(header: string, field: string): string
  {
    var cleaned := Trim(Remove(Remove(field, '"'), ','));
    if Blank(cleaned) then
      var run := FirstDigitRun(header);
      if run != "" then run else cleaned
    else cleaned
  }

  /** The phone number chosen through the fallback chain, ending in
      `Unknown`: it is never blank. */
  function PhoneNumber(header: string, commaPos: nat): (phone: string)
    ensures !Blank(phone)
  {
    var statusEnd := StatusEnd(header, commaPos);
    var quoted := QuotedPhone(header, statusEnd);
    var phone := if Blank(quoted) then DelimitedPhone(header, commaPos, statusEnd, quoted) else quoted;
    if Blank(phone) then "Unknown" else phone
  }

  /** The comma after the one at `c`, with -1 carried along. */
  function NextComma(header: string, c: int): (r: int)
    requires c >= -1
    ensures r == -1 || (c < r < |header| && header[r] == ',')
  {
    if c == -1 then -1 else IndexOfChar(header, ',', c + 1)
  }

  /** The timestamp text: after the fourth comma, without an opening quote,
      up to the next quote or the end; "" when there is no fourth comma
      before the last character. */
  function RawTimestamp(header: string): string
  {
    var c1 := IndexOfChar(header, ',', 0);
    var c4 := NextComma(header, NextComma(header, NextComma(header, c1)));
    if c4 != -1 && c4 < |header| - 1 then QuotedFrom(header, c4 + 1) else ""
  }

  /** The text from `s0`, without an opening quote, up to the next quote or
      the end. */
  function QuotedFrom(header: string, s0: nat): string
  {
    var timestampStart := if s0 < |header| && header[s0] == '"' then s0 + 1 else s0;
    var e := IndexOfChar(header, '"', timestampStart);
    Substring(header, timestampStart, if e == -1 then |header| else e)
  }

  /** `yy/MM/dd,hh:mm:ss[zone]` as `20yy-MM-ddThh:mm:ss` and the zone: a
      `+` is put before a zone without a sign, `+00` stands for a missing
      one. Unlike `getCurrentDateTime`, no `:00` is added. */
  function SmsIso(t: string): string
    requires |t| >= 17
  {
    var tz :=
      if |t| > 17 then
        var z := t[17..];
        if z[0] != '+' && z[0] != '-' then "+" + z else z
      else "+00";
    "20" + t[0..2] + "-" + t[3..5] + "-" + t[6..8] + "T" + t[9..11] + ":" + t[12..14] + ":" + t[15..17] + tz
  }

  /** The message's timestamp: the reformatted header time, or the clock
      reading `now` when the header time is missing or short. */
  function Timestamp(header: string, now: string): (t: string)
    ensures |RawTimestamp(header)| < 17 ==> t == now
    ensures |RawTimestamp(header)| >= 17 ==> t == SmsIso(RawTimestamp(header)) && |t| >= 20
  {
    var raw := RawTimestamp(header);
    var timestamp := if |raw| >= 17 then SmsIso(raw) else raw;
    if timestamp == "" || |timestamp| < 17 then now else timestamp
  }

  // ------------------------------------------------------------- the body

  predicate HexHead(m: string)
    requires |m| >= 4
  {
    IsHexDigit(m[0]) && IsHexDigit(m[1]) && IsHexDigit(m[2]) && IsHexDigit(m[3])
  }

  /** The message text: UCS-2 decoded when its first four characters are
      hex digits, as it stands otherwise. */
  function MessageText(raw: string): (m: string)
    ensures |raw| < 4 || !HexHead(raw) ==> m == raw
    ensures |raw| >= 4 && HexHead(raw) ==> m == Ucs2Decoded(raw)
  {
    if |raw| >= 4 && HexHead(raw) then Ucs2Decoded(raw) else raw
  }

  // ------------------------------------------------------- the whole reply

  /** One turn of the `getNewSms` loop for the `+CMGL:` found at `p`: the
      message it yields (none when its header has no comma) and where the
      next search starts, always past `p`. */
  function Entry(response: string, p: nat, now: string): (r: (Option<SmsMessage>, nat))
    requires OccursAt(response, "+CMGL:", p)
    ensures r.1 > p
    ensures r.0.Some? ==> !Blank(r.0.value.phoneNumber)
  {
    var start := p + 7;
    var e := IndexOf(response, "\r\n", start);
    var end := if e == -1 then |response| else e;
    var header := Substring(response, start, end);
    var commaPos := IndexOfChar(header, ',', 0);
    if commaPos == -1 then (None, p + 7)
    else
      var ms := IndexOf(response, "\r\n", end) + 2;
      var msgStart := if ms == 1 then |response| else ms;
      var me := IndexOf(response, "\r\n", msgStart);
      var msgEnd := if me == -1 then |response| else me;
      var raw := Substring(response, msgStart, msgEnd);
      var sms := SmsMessage(PhoneNumber(header, commaPos), MessageText(raw), Timestamp(header, now),
                            ToInt(Substring(header, 0, commaPos)));
      (Some(sms), msgEnd)
  }

  /** The messages the loop collects from `from` on. */
  function Inbox(response: string, from: nat, now: string): (ms: seq<SmsMessage>)
    ensures forall i :: 0 <= i < |ms| ==> !Blank(ms[i].phoneNumber)
    decreases |response| - from
  {
    var p := IndexOf(response, "+CMGL:", from);
    if p == -1 then []
    else
      var (m, next) := Entry(response, p, now);
      (if m.Some? then [m.value] else []) + Inbox(response, next, now)
  }

  lemma InboxStep(response: string, from: nat, now: string)
    requires IndexOf(response, "+CMGL:", from) != -1
    ensures var p := IndexOf(response, "+CMGL:", from);
      OccursAt(response, "+CMGL:", p) && p >= from
      && var step := Entry(response, p, now);
      Inbox(response, from, now) == (if step.0.Some? then [step.0.value] else []) + Inbox(response, step.1, now)
  {
  }

  /** The parsing part of `getNewSms` on the reply to the listing command:
      nothing when the reply holds no `+CMGL:`, the messages of the parse
      loop otherwise. */
  method GetNewSms(response: string, now: string) returns (messages: seq<SmsMessage>)
    ensures messages == Inbox(response, 0, now)
  {
    messages := [];
    if IndexOf(response, "+CMGL:", 0) != -1 {
      messages := ParseListing(response, now);
    }
  }

  /** The `while` loop of `getNewSms`: each `+CMGL:` line found from where
      the previous message ended is read; the search position grows at
      every turn, so the loop ends. */
  method ParseListing(response: string, now: string) returns (messages: seq<SmsMessage>)
    ensures messages == Inbox(response, 0, now)
  {
    messages := [];
    var index: nat := 0;
    var found := IndexOf(response, "+CMGL:", index);
    while found != -1
      invariant found == IndexOf(response, "+CMGL:", index)
      invariant messages + Inbox(response, index, now) == Inbox(response, 0, now)
      decreases |response| - index
    {
      var step := Entry(response, found, now);
      InboxAdvance(response, index, now, messages);
      if step.0.Some? {
        messages := messages + [step.0.value];
      }
      index := step.1;
      found := IndexOf(response, "+CMGL:", index);
    }
  }

  /** What one turn of the loop adds to the messages collected so far. */
  lemma InboxAdvance(response: string, from: nat, now: string, messages: seq<SmsMessage>)
    requires IndexOf(response, "+CMGL:", from) != -1
    ensures var p := IndexOf(response, "+CMGL:", from);
      OccursAt(response, "+CMGL:", p) && p >= from
      && var step := Entry(response, p, now);
      (step.0.Some? ==>
        messages + Inbox(response, from, now) == (messages + [step.0.value]) + Inbox(response, step.1, now))
      && (step.0.None? ==> Inbox(response, from, now) == Inbox(response, step.1, now))
  {
    InboxStep(response, from, now);
    var step := Entry(response, IndexOf(response, "+CMGL:", from), now);
    if step.0.Some? {
      var head := [step.0.value];
      assert messages + (head + Inbox(response, step.1, now)) == (messages + head) + Inbox(response, step.1, now);
    } else {
      assert [] + Inbox(response, step.1, now) == Inbox(response, step.1, now);
    }
  }

  /** A reply without `+CMGL:` yields no message. */
  lemma NoListingNoMessages(response: string, now: string)
    requires !Contains(response, "+CMGL:")
    ensures Inbox(response, 0, now) == []
  {
    IndexOfFindsContained(response, "+CMGL:");
  }

  /** Every message read carries the header's index, a number that is not
      blank, the reformatted header time or the clock reading, and a body
      that is UCS-2 decoded exactly when it starts with four hex digits. */
  lemma EntryFields(response: string, p: nat, now: string)
    requires OccursAt(response, "+CMGL:", p)
    ensures var (m, _) := Entry(response, p, now);
      m.Some? ==>
        var start := p + 7;
        var e := IndexOf(response, "\r\n", start);
        var header := Substring(response, start, if e == -1 then |response| else e);
        var commaPos := IndexOfChar(header, ',', 0);
        commaPos >= 0
        && m.value.index == ToInt(Substring(header, 0, commaPos))
        && !Blank(m.value.phoneNumber)
        && (m.value.timestamp == now || |m.value.timestamp| >= 20)
  {
  }

  // -------------------------------------------- the standard header layout

  /** A `+CMGL` header in the text-mode layout of 3GPP TS 27.005 section
      3.4.2: `<index>,"<stat>","<oa>","<alpha>","<scts>"`. */
  function StdHeader(idx: string, stat: string, oa: string, alpha: string, scts: string): string
  {
    idx + ",\"" + stat + "\",\"" + oa + "\",\"" + alpha + "\",\"" + scts + "\""
  }

  /** A field with neither quotes nor commas. */
  predicate Plain(x: string)
  {
    '"' !in x && ',' !in x
  }

  lemma IndexOfCharAt(s: string, c: char, from: nat, k: nat)
    requires from <= k < |s| && s[k] == c
    requires forall j :: from <= j < k ==> s[j] != c
    ensures IndexOfChar(s, c, from) == k
  {
  }

  /** The positions of the separators of a standard header. */
  lemma StdHeaderLayout(idx: string, stat: string, oa: string, alpha: string, scts: string)
    ensures var h := StdHeader(idx, stat, oa, alpha, scts);
      var o3 := |idx| + 2 + |stat|;
      var o4 := o3 + 3 + |oa|;
      var o5 := o4 + 3 + |alpha|;
      |h| == o5 + 4 + |scts|
      && h[..|idx|] == idx && h[|idx|] == ',' && h[|idx| + 1] == '"' && h[|idx| + 2..o3] == stat
      && h[o3] == '"' && h[o3 + 1] == ',' && h[o3 + 2] == '"' && h[o3 + 3..o4] == oa
      && h[o4] == '"' && h[o4 + 1] == ',' && h[o4 + 2] == '"' && h[o4 + 3..o5] == alpha
      && h[o5] == '"' && h[o5 + 1] == ',' && h[o5 + 2] == '"' && h[o5 + 3..o5 + 3 + |scts|] == scts
      && h[o5 + 3 + |scts|] == '"'
  {
  }

  /** The index field is everything before the first comma. */
  lemma StdHeaderIndex(idx: string, stat: string, oa: string, alpha: string, scts: string)
    requires idx != [] && AllDigits(idx)
    requires Fits(StdHeader(idx, stat, oa, alpha, scts))
    ensures var h := StdHeader(idx, stat, oa, alpha, scts);
      IndexOfChar(h, ',', 0) == |idx| && ToInt(Substring(h, 0, |idx|)) == DigitsValue(idx)
  {
    StdHeaderLayout(idx, stat, oa, alpha, scts);
    LeadingIndexField(StdHeader(idx, stat, oa, alpha, scts), idx);
  }

  lemma LeadingIndexField(h: string, idx: string)
    requires idx != [] && AllDigits(idx) && Fits(h)
    requires |h| > |idx| && h[..|idx|] == idx && h[|idx|] == ','
    ensures IndexOfChar(h, ',', 0) == |idx| && ToInt(Substring(h, 0, |idx|)) == DigitsValue(idx)
  {
    assert forall j :: 0 <= j < |idx| ==> h[j] == idx[j];
    IndexOfCharAt(h, ',', 0, |idx|);
    assert Substring(h, 0, |idx|) == idx;
    ToIntOfDigits(idx, []);
    assert idx + [] == idx;
  }

  /** A number without padding: its ends are not white space. */
  predicate Unpadded(x: string)
  {
    x != [] ==> !CIsSpace(x[0]) && !CIsSpace(x[|x| - 1])
  }

  /** The quoted field, cleaned as `getNewSms` cleans it, is the field. */
  lemma CleanQuoted(oa: string)
    requires Plain(oa) && Unpadded(oa)
    ensures Trim(Remove(Remove("\"" + oa + "\"", '"'), ',')) == oa
  {
    RemoveConcat("\"" + oa, "\"", '"');
    RemoveConcat("\"", oa, '"');
    assert Remove("\"" + oa + "\"", '"') == oa;
    if oa != [] {
      assert SkipCSpace(oa) == oa;
      assert TrimRight(oa) == oa;
    }
  }

  lemma StatusEndAt(h: string, c: nat, o3: nat)
    requires c + 2 <= o3 < |h| && h[c] == ',' && h[c + 1] == '"' && h[o3] == '"'
    requires '"' !in h[c + 2..o3]
    ensures StatusEnd(h, c) == o3
  {
    IndexOfCharAt(h, '"', c, c + 1);
    assert forall j :: c + 2 <= j < o3 ==> h[j] == h[c + 2..o3][j - c - 2];
    IndexOfCharAt(h, '"', c + 2, o3);
  }

  lemma QuotedPhoneAt(h: string, o3: nat)
    requires o3 + 2 < |h| && h[o3] == '"' && h[o3 + 1] == ',' && h[o3 + 2] == '"' && Fits(h)
    ensures QuotedPhone(h, o3) == ","
  {
    IndexOfCharAt(h, '"', o3, o3);
    IndexOfCharAt(h, '"', o3 + 1, o3 + 2);
    assert h[o3 + 1..o3 + 2] == ",";
  }

  /** The comma-delimited fallback once both commas around the number are
      known. */
  lemma DelimitedPhoneBetween(h: string, c: nat, o3: nat, e: nat, field: string)
    requires o3 + 2 < e < |h|
    requires IndexOfChar(h, ',', o3 + 1) == o3 + 1
    requires IndexOfChar(h, ',', o3 + 2) == e
    requires Substring(h, o3 + 2, e) == field
    ensures DelimitedPhone(h, c, o3, ",") == CleanedPhone(h, field)
  {
    assert DelimitedPhone(h, c, o3, ",") == FieldPhone(h, o3 + 2, ",");
  }

  lemma DelimitedPhoneAt(h: string, c: nat, o3: nat, oa: string)
    requires Plain(oa) && Unpadded(oa) && Fits(h)
    requires o3 + |oa| + 4 < |h| && h[o3 + 1] == ','
    requires h[o3 + 2..o3 + |oa| + 4] == "\"" + oa + "\"" && h[o3 + |oa| + 4] == ','
    ensures DelimitedPhone(h, c, o3, ",") == if oa == "" then FirstDigitRun(h) else oa
  {
    QuotedBetweenCommas(h, o3, oa);
    DelimitedPhoneBetween(h, c, o3, o3 + |oa| + 4, "\"" + oa + "\"");
    CleanedQuoted(h, oa);
  }

  /** The quoted number sits between the comma after the third field and
      the next comma. */
  lemma QuotedBetweenCommas(h: string, o3: nat, oa: string)
    requires Plain(oa) && Fits(h)
    requires o3 + |oa| + 4 < |h| && h[o3 + 1] == ','
    requires h[o3 + 2..o3 + |oa| + 4] == "\"" + oa + "\"" && h[o3 + |oa| + 4] == ','
    ensures Substring(h, o3 + 2, o3 + |oa| + 4) == "\"" + oa + "\""
    ensures IndexOfChar(h, ',', o3 + 1) == o3 + 1
    ensures IndexOfChar(h, ',', o3 + 2) == o3 + |oa| + 4
  {
    var o4 := o3 + |oa| + 3;
    IndexOfCharAt(h, ',', o3 + 1, o3 + 1);
    assert forall j :: o3 + 2 <= j <= o4 ==> h[j] == h[o3 + 2..o4 + 1][j - o3 - 2];
    IndexOfCharAt(h, ',', o3 + 2, o4 + 1);
  }

  /** The quoted number, cleaned; the header's first digit run stands in
      for an empty one. */
  lemma CleanedQuoted(h: string, oa: string)
    requires Plain(oa) && Unpadded(oa)
    ensures CleanedPhone(h, "\"" + oa + "\"") == if oa == "" then FirstDigitRun(h) else oa
  {
    CleanQuoted(oa);
  }

  /** The fallback chain once the quote search and the comma-delimited
      field are known. */
  lemma PhoneNumberOf(h: string, c: nat, o3: nat, d: string)
    requires StatusEnd(h, c) == o3 && QuotedPhone(h, o3) == "," && DelimitedPhone(h, c, o3, ",") == d
    ensures PhoneNumber(h, c) == if Blank(d) then "Unknown" else d
  {
  }

  /** The number search on a header laid out as the standard one from the
      status's closing quote at `o3` on. */
  lemma PhoneNumberAt(h: string, c: nat, o3: nat, oa: string)
    requires Plain(oa) && Unpadded(oa) && Fits(h)
    requires StatusEnd(h, c) == o3 && QuotedPhone(h, o3) == ","
    requires o3 + |oa| + 4 < |h| && h[o3 + 1] == ','
    requires h[o3 + 2..o3 + |oa| + 4] == "\"" + oa + "\"" && h[o3 + |oa| + 4] == ','
    ensures PhoneNumber(h, c) == if oa == "" && FirstDigitRun(h) != "" then FirstDigitRun(h)
                                 else if oa == "" then "Unknown" else oa
  {
    DelimitedPhoneAt(h, c, o3, oa);
    PhoneNumberOf(h, c, o3, if oa == "" then FirstDigitRun(h) else oa);
  }

  /** A header that starts with its digits and a comma has those digits as
      its first digit run. */
  lemma FirstDigitRunOfIndex(h: string, idx: string)
    requires idx != [] && AllDigits(idx) && |idx| < |h| && h[..|idx|] == idx && h[|idx|] == ','
    ensures FirstDigitRun(h) == idx
  {
    LeadingDigitsOfAllDigits(idx, h[|idx|..]);
    assert h == idx + h[|idx|..];
  }

  /** The number search on a header with the separators of the standard
      layout around an index `idx`, a status of length `n` and a number `oa`. */
  lemma PhoneNumberInLayout(h: string, idx: string, n: nat, oa: string)
    requires idx != [] && AllDigits(idx) && Plain(oa) && Unpadded(oa) && Fits(h)
    requires |idx| + n + |oa| + 6 < |h| && h[..|idx|] == idx && h[|idx|] == ',' && h[|idx| + 1] == '"'
    requires '"' !in h[|idx| + 2..|idx| + 2 + n]
    requires h[|idx| + 2 + n..|idx| + n + 7 + |oa|] == "\",\"" + oa + "\","
    ensures QuotedPhone(h, StatusEnd(h, |idx|)) == ","
    ensures PhoneNumber(h, |idx|) == if oa == "" then idx else oa
  {
    var o3 := |idx| + 2 + n;
    var tail := "\",\"" + oa + "\",";
    assert h[o3] == '"' && h[o3 + 1] == ',' && h[o3 + 2] == '"' && h[o3 + |oa| + 4] == ','
      && h[o3 + 2..o3 + |oa| + 4] == tail[2..|oa| + 4] by {
      assert forall j :: 0 <= j < |tail| ==> h[o3 + j] == tail[j];
    }
    assert StatusEnd(h, |idx|) == o3 by {
      StatusEndAt(h, |idx|, o3);
    }
    assert QuotedPhone(h, o3) == "," by {
      QuotedPhoneAt(h, o3);
    }
    assert FirstDigitRun(h) == idx by {
      FirstDigitRunOfIndex(h, idx);
    }
    PhoneNumberAt(h, |idx|, o3, oa);
  }

  /** The number search on a standard header: the quote search yields the
      comma between the status and the number, the comma-delimited fallback
      then yields the number itself; for an empty number it yields the
      first digit run of the header, which is the message index. */
  lemma StdHeaderPhone(idx: string, stat: string, oa: string, alpha: string, scts: string)
    requires idx != [] && AllDigits(idx) && Plain(stat) && Plain(oa) && Unpadded(oa)
    requires Fits(StdHeader(idx, stat, oa, alpha, scts))
    ensures var h := StdHeader(idx, stat, oa, alpha, scts);
      QuotedPhone(h, StatusEnd(h, |idx|)) == ","
      && PhoneNumber(h, |idx|) == if oa == "" then idx else oa
  {
    var h := StdHeader(idx, stat, oa, alpha, scts);
    var rest := "\"" + alpha + "\",\"" + scts + "\"";
    assert h == idx + ",\"" + stat + ("\",\"" + oa + "\",") + rest;
    var n := |stat|;
    assert h[..|idx|] == idx;
    assert h[|idx| + 2..|idx| + 2 + n] == stat;
    assert h[|idx| + 2 + n..|idx| + n + 7 + |oa|] == "\",\"" + oa + "\",";
    PhoneNumberInLayout(h, idx, n, oa);
  }

  /** The timestamp search once the fourth comma and the closing quote of
      the time are known. */
  lemma RawTimestampBetween(h: string, c4: nat, e: nat)
    requires NextComma(h, NextComma(h, NextComma(h, IndexOfChar(h, ',', 0)))) == c4
    requires c4 + 2 <= e < |h| && h[c4 + 1] == '"' && IndexOfChar(h, '"', c4 + 2) == e
    ensures RawTimestamp(h) == Substring(h, c4 + 2, e)
  {
    RawTimestampAfter(h, c4);
    QuotedFromQuote(h, c4 + 1, e);
  }

  lemma RawTimestampAfter(h: string, c4: nat)
    requires NextComma(h, NextComma(h, NextComma(h, IndexOfChar(h, ',', 0)))) == c4
    requires c4 < |h| - 1
    ensures RawTimestamp(h) == QuotedFrom(h, c4 + 1)
  {
  }

  lemma QuotedFromQuote(h: string, s0: nat, e: nat)
    requires s0 + 1 <= e < |h| && h[s0] == '"' && IndexOfChar(h, '"', s0 + 1) == e
    ensures QuotedFrom(h, s0) == Substring(h, s0 + 1, e)
  {
  }

  /** The timestamp search once the four commas and the quoted time after
      the last of them are known. */
  lemma RawTimestampAt(h: string, c1: nat, c2: nat, c3: nat, c4: nat, scts: string)
    requires c1 < c2 < c3 < c4 && c4 + 2 + |scts| < |h| && Fits(h)
    requires IndexOfChar(h, ',', 0) == c1 && h[c2] == ',' && h[c3] == ',' && h[c4] == ','
    requires forall j :: c1 < j < c2 || c2 < j < c3 || c3 < j < c4 ==> h[j] != ','
    requires h[c4 + 1] == '"' && h[c4 + 2..c4 + 2 + |scts|] == scts && '"' !in scts
    requires h[c4 + 2 + |scts|] == '"'
    ensures RawTimestamp(h) == scts
  {
    CommaChain(h, c1, c2, c3, c4);
    ClosingQuote(h, c4 + 2, scts);
    RawTimestampBetween(h, c4, c4 + 2 + |scts|);
  }

  /** The second, third and fourth commas, found one after the other. */
  lemma CommaChain(h: string, c1: nat, c2: nat, c3: nat, c4: nat)
    requires c1 < c2 < c3 < c4 < |h|
    requires h[c2] == ',' && h[c3] == ',' && h[c4] == ','
    requires forall j :: c1 < j < c2 || c2 < j < c3 || c3 < j < c4 ==> h[j] != ','
    ensures NextComma(h, NextComma(h, NextComma(h, c1))) == c4
  {
    IndexOfCharAt(h, ',', c1 + 1, c2);
    IndexOfCharAt(h, ',', c2 + 1, c3);
    IndexOfCharAt(h, ',', c3 + 1, c4);
  }

  /** A quote-free text at `start` followed by a quote is what the search
      for the closing quote cuts out. */
  lemma ClosingQuote(h: string, start: nat, v: string)
    requires start + |v| < |h| && Fits(h)
    requires h[start..start + |v|] == v && '"' !in v && h[start + |v|] == '"'
    ensures IndexOfChar(h, '"', start) == start + |v|
    ensures Substring(h, start, start + |v|) == v
  {
    assert forall j :: start <= j < start + |v| ==> h[j] == v[j - start];
    IndexOfCharAt(h, '"', start, start + |v|);
  }

  /** The commas of a standard header with plain fields are its four
      separators. */
  lemma StdHeaderCommas(idx: string, stat: string, oa: string, alpha: string, scts: string)
    requires Plain(stat) && Plain(oa) && Plain(alpha)
    ensures var h := StdHeader(idx, stat, oa, alpha, scts);
      var c2 := |idx| + 3 + |stat|;
      var c3 := c2 + 3 + |oa|;
      var c4 := c3 + 3 + |alpha|;
      c4 + 2 + |scts| < |h| && h[|idx|] == ',' && h[c2] == ',' && h[c3] == ',' && h[c4] == ','
      && (forall j :: |idx| < j < c2 || c2 < j < c3 || c3 < j < c4 ==> h[j] != ',')
      && h[c4 + 1] == '"' && h[c4 + 2..c4 + 2 + |scts|] == scts && h[c4 + 2 + |scts|] == '"'
  {
    var h := StdHeader(idx, stat, oa, alpha, scts);
    StdHeaderLayout(idx, stat, oa, alpha, scts);
    var o3 := |idx| + 2 + |stat|;
    var o4 := o3 + 3 + |oa|;
    var o5 := o4 + 3 + |alpha|;
    assert forall j :: |idx| + 2 <= j < o3 ==> h[j] == stat[j - |idx| - 2];
    assert forall j :: o3 + 3 <= j < o4 ==> h[j] == oa[j - o3 - 3];
    assert forall j :: o4 + 3 <= j < o5 ==> h[j] == alpha[j - o4 - 3];
  }

  /** On a standard header whose time has no quote, the message's
      timestamp is the reformatted `<scts>` when it is long enough and the
      clock reading otherwise. */
  lemma StdHeaderTimestamp(idx: string, stat: string, oa: string, alpha: string, scts: string, now: string)
    requires idx != [] && AllDigits(idx) && Plain(stat) && Plain(oa) && Plain(alpha) && '"' !in scts
    requires Fits(StdHeader(idx, stat, oa, alpha, scts))
    ensures var h := StdHeader(idx, stat, oa, alpha, scts);
      RawTimestamp(h) == scts
      && Timestamp(h, now) == if |scts| >= 17 then SmsIso(scts) else now
  {
    var h := StdHeader(idx, stat, oa, alpha, scts);
    StdHeaderIndex(idx, stat, oa, alpha, scts);
    StdHeaderCommas(idx, stat, oa, alpha, scts);
    var c2 := |idx| + 3 + |stat|;
    var c3 := c2 + 3 + |oa|;
    RawTimestampAt(h, |idx|, c2, c3, c3 + 3 + |alpha|, scts);
  }
}
