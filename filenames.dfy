/** The positional parsers of uploaded image names, and the upload name
    check. A name is cut at `_` after dropping its extension; fields are read
    by position. Floating-point values stay opaque: a field records the token
    that `float()` accepted (or the integer `int()` produced) together with
    the divisor applied to it. */
module Filenames {
  import opened Text
  import SecurityPatterns

  /** A parsed field; `NA` is the string 'N/A'. */
  datatype Field =
    | NA
    | Whole(n: int)              // an int
    | Ratio(n: int, d: nat)      // int(...) / d, a float
    | Real(text: string, d: nat) // float(text) / d
    | Label(s: string)           // a str

  /** The 7-tuple `(voltage_sim, voltage_akb, signal_level, reason,
      datetime_str, humidity, temperature)` of both `extract_info_from_filename`. */
  datatype Info = Info(voltageSim: Field, voltageAkb: Field, signal: Field, reason: Field,
                       datetime: Field, humidity: Field, temperature: Field)

  const AllNA: Info := Info(NA, NA, NA, NA, NA, NA, NA)

  /** The dict built by `parse_image_metadata` of the web application. */
  datatype Metadata = Metadata(image: string, userId: Field, date: string, voltageSim: Field,
                               voltageAkb: Field, temperature: Field, humidity: Field,
                               signalLevel: Field, reason: Field)

  // ------------------------------------------------------- path handling

  /** PurePath(p).name for a path without a trailing slash. */
  function BaseName(p: string): (r: string)
    ensures '/' !in r && |r| <= |p| && r == p[|p| - |r|..]
    ensures '/' !in p ==> r == p
  {
    var k := LastIndexOf(p, '/');
    p[k + 1..]
  }

  /** PurePath(name).stem: the name without its last suffix, where a suffix
      starts at a dot that is neither the first nor the last character. */
  function Stem(name: string): (r: string)
    ensures |r| <= |name| && r == name[..|r|]
  {
    var i := LastIndexOf(name, '.');
    if 0 < i < |name| - 1 then name[..i] else name
  }

  /** os.path.splitext(p)[0]: the text before the last dot of the last path
      component, unless everything before that dot in the component is dots. */
  function SplitExtRoot(p: string): (r: string)
    ensures |r| <= |p| && r == p[..|r|]
  {
    var sep := LastIndexOf(p, '/');
    var dot := LastIndexOf(p, '.');
    if dot > sep && exists i :: sep < i < dot && p[i] != '.' then p[..dot] else p
  }

  /** `Path(filename).stem.split('_')` (FastAPI service). */
  function StemParts(filename: string): seq<string>
  {
    Split(Stem(BaseName(filename)), '_')
  }

  /** `os.path.splitext(filename)[0].split('_')` (web application). */
  function RootParts(filename: string): seq<string>
  {
    Split(SplitExtRoot(filename), '_')
  }

  lemma LastDotOfSuffixed(x: string, ext: string)
    requires '.' !in ext
    ensures LastIndexOf(x + "." + ext, '.') == |x|
  {
    AfterSeparator(x, '.', ext);
    LastIndexOfAt(x + "." + ext, '.', |x|);
  }

  lemma AfterSeparator(x: string, c: char, ext: string)
    requires c !in ext
    ensures var s := x + [c] + ext; s[|x|] == c && forall j :: |x| < j < |s| ==> s[j] != c
  {
    var s := x + [c] + ext;
    assert forall j :: |x| < j < |s| ==> s[j] == ext[j - |x| - 1];
  }

  /** The last occurrence is the one with no other after it. */
  lemma LastIndexOfAt(s: string, c: char, i: nat)
    requires i < |s| && s[i] == c && forall j :: i < j < |s| ==> s[j] != c
    ensures LastIndexOf(s, c) == i
  {
  }

  lemma NoSlashLastIndex(s: string)
    requires '/' !in s
    ensures LastIndexOf(s, '/') == -1
  {
    assert forall j :: 0 <= j < |s| ==> s[j] != '/';
  }

  lemma NoSlashSuffixed(x: string, ext: string)
    requires '/' !in x && '/' !in ext
    ensures '/' !in x + "." + ext
  {
    var s := x + "." + ext;
    assert forall j :: 0 <= j < |x| ==> s[j] == x[j];
    assert forall j :: |x| < j < |s| ==> s[j] == ext[j - |x| - 1];
    assert forall j :: 0 <= j < |s| ==> s[j] != '/';
  }

  /** Both ways of dropping the extension give the same root for a stored
      upload name `x.ext` (x not starting with a dot, no slash anywhere). */
  lemma UploadRootsAgree(x: string, ext: string)
    requires x != [] && x[0] != '.' && '/' !in x && '/' !in ext && '.' !in ext && ext != []
    ensures Stem(BaseName(x + "." + ext)) == x
    ensures SplitExtRoot(x + "." + ext) == x
  {
    var s := x + "." + ext;
    NoSlashSuffixed(x, ext);
    NoSlashLastIndex(s);
    LastDotOfSuffixed(x, ext);
    assert BaseName(s) == s;
    assert s[0] == x[0] && s[..|x|] == x;
    assert -1 < 0 < |x| && s[0] != '.';
  }

  lemma SplitTwoParts(date: string, time: string, rest: string)
    requires '_' !in date && '_' !in time
    ensures Split(date + ['_'] + (time + ['_'] + rest), '_') == [date, time] + Split(rest, '_')
  {
    SplitConcat(date, time + ['_'] + rest, '_');
    SplitConcat(time, rest, '_');
    SplitNoSep(date, '_');
    SplitNoSep(time, '_');
  }

  /** `save_file` stores uploads as `<YYYYmmdd>_<HHMMSS>_<name>`: after
      cutting at `_`, parts 0 and 1 are the server's date and time. */
  lemma StampedParts(date: string, time: string, rest: string)
    requires '_' !in date && '_' !in time
    ensures Split(date + "_" + time + "_" + rest, '_') == [date, time] + Split(rest, '_')
  {
    assert date + "_" + time + "_" + rest == date + ['_'] + (time + ['_'] + rest);
    SplitTwoParts(date, time, rest);
  }

  // ------------------------------------------------------------ numbers

  /** `int(int(raw) / 31 * 100)`: a percentage of 31, truncated toward zero
      and not capped. (For raw values below 2^40 the float quotient never
      lands on the wrong side of an integer, so this integer form is exact.) */
  function SignalLevel(raw: int): (r: int)
    ensures raw >= 0 ==> 0 <= r && 31 * r <= 100 * raw < 31 * (r + 1)
    ensures raw < 0 ==> r <= 0 && 31 * -r <= 100 * -raw < 31 * (-r + 1)
  {
    if raw >= 0 then 100 * raw / 31 else -(100 * -raw / 31)
  }

  lemma SignalExamples()
    ensures SignalLevel(31) == 100 && SignalLevel(15) == 48 && SignalLevel(30) == 96
    ensures SignalLevel(62) == 200 && SignalLevel(-15) == -48
  {
  }

  /** `int(parts[6].replace(',', ''))`, or None when int() raises. */
  function RawSignal(parts: seq<string>): Option<int>
    requires |parts| > 6
  {
    PyInt(Remove(parts[6], ','))
  }

  /** `f"{d[6:8]}.{d[4:6]}.{d[0:4]} {t[0:2]}:{t[2:4]}:{t[4:6]}"` */
  function DateTimeText(d: string, t: string): (r: string)
    ensures |d| == 8 && |t| == 6 ==>
      r == d[6..8] + "." + d[4..6] + "." + d[0..4] + " " + t[0..2] + ":" + t[2..4] + ":" + t[4..6]
  {
    PySlice(d, 6, 8) + "." + PySlice(d, 4, 6) + "." + PySlice(d, 0, 4) + " "
    + PySlice(t, 0, 2) + ":" + PySlice(t, 2, 4) + ":" + PySlice(t, 4, 6)
  }

  /** The server stamp `YYYYmmdd_HHMMSS` reads back as `dd.mm.YYYY HH:MM:SS`. */
  lemma StampReadsBack(y: string, mo: string, dd: string, h: string, mi: string, s: string)
    requires |y| == 4 && |mo| == 2 && |dd| == 2 && |h| == 2 && |mi| == 2 && |s| == 2
    ensures DateTimeText(y + mo + dd, h + mi + s) == dd + "." + mo + "." + y + " " + h + ":" + mi + ":" + s
  {
    var d := y + mo + dd;
    var t := h + mi + s;
    assert d[6..8] == dd && d[4..6] == mo && d[0..4] == y;
    assert t[0..2] == h && t[2..4] == mi && t[4..6] == s;
  }

  lemma NoSlashStamped(date: string, time: string, rest: string)
    requires '/' !in date && '/' !in time && '/' !in rest
    ensures '/' !in date + "_" + time + "_" + rest
  {
    var x := date + "_" + time + "_" + rest;
    assert forall j :: 0 <= j < |date| ==> x[j] == date[j];
    assert forall j :: |date| < j <= |date| + |time| ==> x[j] == time[j - |date| - 1];
    assert forall j :: |date| + |time| + 1 < j < |x| ==> x[j] == rest[j - |date| - |time| - 2];
    assert forall j :: 0 <= j < |x| ==> x[j] != '/';
  }

  /** The parts of a stored upload name `<date>_<time>_<name>.<ext>`. */
  lemma StampedNameParts(date: string, time: string, rest: string, ext: string)
    requires date != [] && AllDigits(date) && AllDigits(time) && '/' !in rest
    requires ext != [] && '/' !in ext && '.' !in ext
    ensures var name := date + "_" + time + "_" + rest + "." + ext;
      && StemParts(name) == [date, time] + Split(rest, '_')
      && RootParts(name) == [date, time] + Split(rest, '_')
  {
    var x := date + "_" + time + "_" + rest;
    assert forall j :: 0 <= j < |date| ==> IsDigit(date[j]);
    assert forall j :: 0 <= j < |time| ==> IsDigit(time[j]);
    assert '_' !in date && '_' !in time && '/' !in date && '/' !in time;
    NoSlashStamped(date, time, rest);
    assert x[0] == date[0];
    UploadRootsAgree(x, ext);
    StampedParts(date, time, rest);
  }

  /** A name stored by `save_file` (`YYYYmmdd_HHMMSS_<name>.<ext>`) reads
      back the server stamp: always in the web application, and in the
      FastAPI service unless a field fails to convert. */
  lemma StampedUploadReadsBack(y: string, mo: string, dd: string, h: string, mi: string, s: string,
                               rest: string, ext: string, reasons: map<string, string>)
    requires |y| == 4 && |mo| == 2 && |dd| == 2 && |h| == 2 && |mi| == 2 && |s| == 2
    requires AllDigits(y + mo + dd) && AllDigits(h + mi + s) && '/' !in rest
    requires ext != [] && '/' !in ext && '.' !in ext
    ensures var name := (y + mo + dd) + "_" + (h + mi + s) + "_" + rest + "." + ext;
      var stamp := dd + "." + mo + "." + y + " " + h + ":" + mi + ":" + s;
      && ImageMetadata(name, reasons).Some?
      && ImageMetadata(name, reasons).value.date == stamp
      && (StemInfo(name, reasons) == AllNA || StemInfo(name, reasons).datetime == Label(stamp))
  {
    StampedNameParts(y + mo + dd, h + mi + s, rest, ext);
    StampReadsBack(y, mo, dd, h, mi, s);
  }

  /** `safe_parse(parts, num, float, divisor)`: the float divided by the
      divisor, or 'N/A' when the index is out of range or float() raises. */
  function SafeParse(parts: seq<string>, num: nat, divisor: nat): (r: Field)
    ensures r == NA <==> num >= |parts| || !FloatSyntax(parts[num])
    ensures r != NA ==> r == Real(parts[num], divisor)
  {
    if num < |parts| && FloatSyntax(parts[num]) then Real(parts[num], divisor) else NA
  }

  // ------------------------------------------------ FastAPI service parser

  /** The length guards and conversions that can raise (ValueError) in the
      FastAPI service parser all succeed. */
  predicate StemFieldsParse(parts: seq<string>)
  {
    (|parts| > 4 ==> PyInt(parts[4]).Some?)
    && (|parts| > 14 ==> FloatSyntax(parts[14]))
    && (|parts| > 6 ==> RawSignal(parts).Some?)
    && (|parts| > 12 ==> FloatSyntax(parts[12]))
    && (|parts| > 10 ==> FloatSyntax(parts[10]))
  }

  /** `extract_info_from_filename` of the FastAPI service: one try block, so
      the first failure (a missing time part, or a field that does not
      convert) turns all seven outputs into 'N/A', date included. */
  function StemInfo(filename: string, reasons: map<string, string>): (r: Info)
    ensures var parts := StemParts(filename);
      && (r == AllNA <==> |parts| < 2 || !StemFieldsParse(parts))
      && (r != AllNA ==>
            && r.datetime == Label(DateTimeText(parts[0], parts[1]))
            && r.voltageSim == (if |parts| > 4 then Ratio(PyInt(parts[4]).value, 1000) else NA)
            && r.voltageAkb == SafeParse(parts, 14, 1)
            && r.signal == (if |parts| > 6 then Whole(SignalLevel(RawSignal(parts).value)) else NA)
            && r.reason == (if |parts| > 8 && parts[8] in reasons then Label(reasons[parts[8]]) else NA)
            && r.humidity == SafeParse(parts, 12, 1)
            && r.temperature == SafeParse(parts, 10, 1))
  {
    var parts := StemParts(filename);
    if |parts| < 2 || !StemFieldsParse(parts) then AllNA
    else
      Info(if |parts| > 4 then Ratio(PyInt(parts[4]).value, 1000) else NA,
           if |parts| > 14 then Real(parts[14], 1) else NA,
           if |parts| > 6 then Whole(SignalLevel(RawSignal(parts).value)) else NA,
           if |parts| > 8 && parts[8] in reasons then Label(reasons[parts[8]]) else NA,
           Label(DateTimeText(parts[0], parts[1])),
           if |parts| > 12 then Real(parts[12], 1) else NA,
           if |parts| > 10 then Real(parts[10], 1) else NA)
  }

  /** With only the date and time parts present, every other field is 'N/A'
      and the date is still read. */
  lemma StemShortNameKeepsDate(filename: string, reasons: map<string, string>)
    requires 2 <= |StemParts(filename)| <= 4
    ensures StemInfo(filename, reasons).datetime != NA
    ensures StemInfo(filename, reasons).signal == NA && StemInfo(filename, reasons).voltageSim == NA
  {
  }

  // ------------------------------------------------ web utilities parser

  /** Fields of the web utilities parser; each conversion has its own try
      block, so each field degrades on its own. The time and user parts are
      read outside any try block: a name with fewer than three parts raises
      IndexError (None). */
  function RootInfoWith(filename: string, reasons: map<string, string>): (r: Option<Info>)
    ensures var parts := RootParts(filename);
      && (r.None? <==> |parts| < 3)
      && (r.Some? ==>
            && r.value.datetime == Label(DateTimeText(parts[0], parts[1]))
            && (r.value.voltageSim == NA <==> !(|parts| > 4 && PyInt(parts[4]).Some?))
            && (r.value.signal == NA <==> !(|parts| > 6 && RawSignal(parts).Some?))
            && (r.value.reason == NA <==> !(|parts| > 8 && parts[8] in reasons))
            && r.value.voltageAkb == SafeParse(parts, 14, 1)
            && r.value.humidity == SafeParse(parts, 12, 1)
            && r.value.temperature == SafeParse(parts, 10, 1))
  {
    var parts := RootParts(filename);
    if |parts| < 3 then None
    else
      Some(Info(if |parts| > 4 && PyInt(parts[4]).Some? then Ratio(PyInt(parts[4]).value, 1000) else NA,
                SafeParse(parts, 14, 1),
                if |parts| > 6 && RawSignal(parts).Some? then Whole(SignalLevel(RawSignal(parts).value)) else NA,
                if |parts| > 8 && parts[8] in reasons then Label(reasons[parts[8]]) else NA,
                Label(DateTimeText(parts[0], parts[1])),
                SafeParse(parts, 12, 1),
                SafeParse(parts, 10, 1)))
  }

  /** `extract_info_from_filename` of the web utilities as written: the
      module never imports `ConfigMain`, so the reason lookup raises
      NameError inside its try block, which is the lookup in an empty table. */
  function RootInfo(filename: string): (r: Option<Info>)
    ensures r.Some? ==> r.value.reason == NA
  {
    RootInfoWith(filename, map[])
  }

  /** As written, a known wake-up code is still reported as 'N/A', where the
      intended lookup names it. */
  lemma RootReasonLost(filename: string, reasons: map<string, string>)
    requires |RootParts(filename)| > 8 && RootParts(filename)[8] in reasons
    ensures RootInfo(filename).Some? && RootInfo(filename).value.reason == NA
    ensures RootInfoWith(filename, reasons).value.reason == Label(reasons[RootParts(filename)[8]])
  {
  }

  // --------------------------------------------- web application parser

  /** `parse_image_metadata`: the time part is read outside any try block
      (None when it is missing); every other field degrades on its own. The
      voltages, temperature and humidity go through float(), so `3.7` is a
      valid sim voltage here while the utilities parsers require an int. */
  function ImageMetadata(filename: string, reasons: map<string, string>): (r: Option<Metadata>)
    ensures var parts := RootParts(filename);
      && (r.None? <==> |parts| < 2)
      && (r.Some? ==>
            && r.value.image == filename
            && r.value.date == DateTimeText(parts[0], parts[1])
            && (r.value.userId == NA <==> |parts| < 3)
            && (r.value.signalLevel == NA <==> !(|parts| > 6 && RawSignal(parts).Some?))
            && (r.value.reason == NA <==> !(|parts| > 8 && parts[8] in reasons))
            && r.value.voltageSim == SafeParse(parts, 4, 1000)
            && r.value.voltageAkb == SafeParse(parts, 14, 1)
            && r.value.temperature == SafeParse(parts, 10, 1)
            && r.value.humidity == SafeParse(parts, 12, 1))
  {
    var parts := RootParts(filename);
    if |parts| < 2 then None
    else
      Some(Metadata(filename,
                    if |parts| > 2 then Label(parts[2]) else NA,
                    DateTimeText(parts[0], parts[1]),
                    SafeParse(parts, 4, 1000),
                    SafeParse(parts, 14, 1),
                    SafeParse(parts, 10, 1),
                    SafeParse(parts, 12, 1),
                    if |parts| > 6 && RawSignal(parts).Some? then Whole(SignalLevel(RawSignal(parts).value)) else NA,
                    if |parts| > 8 && parts[8] in reasons then Label(reasons[parts[8]]) else NA))
  }

  /** One bad field: the FastAPI parser loses everything, the web parsers
      lose only that field. */
  lemma BadVoltageContrast(filename: string, reasons: map<string, string>)
    requires StemParts(filename) == RootParts(filename)
    requires |RootParts(filename)| > 4 && !FloatSyntax(RootParts(filename)[4])
    ensures StemInfo(filename, reasons) == AllNA
    ensures RootInfoWith(filename, reasons).value.datetime != NA
    ensures RootInfoWith(filename, reasons).value.voltageSim == NA
    ensures ImageMetadata(filename, reasons).value.voltageSim == NA
  {
    var parts := RootParts(filename);
    if PyInt(parts[4]).Some? {
      IntTextIsFloatText(parts[4]);
    }
  }

  // ------------------------------------------------------ upload check

  /** `validate_filename`: the name has a dot, the lower-cased text after the
      last dot is an allowed extension, and TRAVERSAL finds nothing. */
  predicate ValidFilename(filename: string, extensions: set<string>): (ok: bool)
    ensures ok ==> !SecurityPatterns.Search(SecurityPatterns.Traversal, filename)
    ensures ok <==> !SecurityPatterns.Search(SecurityPatterns.Traversal, filename)
                    && exists k :: 0 <= k < |filename| && filename[k] == '.' && DotFreeAfter(filename, k)
                                   && Lower(filename[k + 1..]) in extensions
  {
    LastDotUnique(filename);
    '.' in filename
    && Lower(filename[LastIndexOf(filename, '.') + 1..]) in extensions
    && !SecurityPatterns.Search(SecurityPatterns.Traversal, filename)
  }

  /** No dot follows index k. */
  predicate DotFreeAfter(s: string, k: int)
  {
    forall j :: k < j < |s| && 0 <= j ==> s[j] != '.'
  }

  /** The last dot is the one dot with no dot after it. */
  lemma LastDotUnique(filename: string)
    ensures forall k :: 0 <= k < |filename| && filename[k] == '.' && DotFreeAfter(filename, k)
                        ==> k == LastIndexOf(filename, '.')
    ensures '.' in filename <==> LastIndexOf(filename, '.') >= 0
  {
    if '.' in filename {
      var i :| 0 <= i < |filename| && filename[i] == '.';
    }
  }

  /** Only the text after the last dot counts, in any case. */
  lemma ValidFilenameByLastExtension(x: string, ext: string, extensions: set<string>)
    requires '.' !in ext
    ensures ValidFilename(x + "." + ext, extensions) <==>
              Lower(ext) in extensions && !SecurityPatterns.Search(SecurityPatterns.Traversal, x + "." + ext)
  {
    var s := x + "." + ext;
    LastDotOfSuffixed(x, ext);
    assert s[|x|] == '.';
    assert s[|x| + 1..] == ext;
  }

  /** A name without a dot is refused. */
  lemma DotlessRefused(filename: string, extensions: set<string>)
    requires '.' !in filename
    ensures !ValidFilename(filename, extensions)
  {
  }

  /** `../` anywhere in the name is refused, whatever its extension. */
  lemma ParentStepRefused(filename: string, i: nat, extensions: set<string>)
    requires OccursAt(filename, "../", i)
    ensures !ValidFilename(filename, extensions)
  {
    var src := SecurityPatterns.Alternatives(SecurityPatterns.Traversal)[0];
    assert src == "\\.\\./";
    assert filename[i..i + 3] == "../";
    assert filename[i] == '.' && filename[i + 1] == '.' && filename[i + 2] == '/';
    assert SecurityPatterns.MatchAt(src[5..], filename, i + 3);
    assert SecurityPatterns.MatchAt(src[4..], filename, i + 2);
    assert SecurityPatterns.MatchAt(src[2..], filename, i + 1);
    assert SecurityPatterns.MatchAt(src, filename, i);
  }

  /** The URL-encoded form `%2e%2e/` is refused too, in any case. */
  lemma EncodedParentStepRefused(filename: string, i: nat, extensions: set<string>)
    requires i <= |filename| && OccursAt(Lower(filename), "%2e%2e/", i)
    ensures !ValidFilename(filename, extensions)
  {
    var src := SecurityPatterns.Alternatives(SecurityPatterns.Traversal)[2];
    assert src == "%2e%2e/";
    assert Lower(src) == src;
    SecurityPatterns.PlainOccurrenceFound(SecurityPatterns.Traversal, 2, filename, i);
  }
}
