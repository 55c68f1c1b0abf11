/** JSON documents as Python's `json` module loads them, and the built-in
    conversions (`bool`, `int`, `float`, `str`, `list`, `dict`) that the
    settings endpoints apply to them. An object is an association list in
    insertion order, which is how a Python dict iterates; `d[k] = v` on a
    present key keeps its place, on an absent key appends it. */
module JsonValue {
  import opened Text

  /** A Python float: finite values are exact reals (rounding to the nearest
      double is not modelled), plus the three special values. */
  datatype Float = Finite(r: real) | PosInf | NegInf | NaN

  datatype Json =
    | JNull
    | JBool(b: bool)
    | JInt(i: int)
    | JFloat(f: Float)
    | JStr(s: string)
    | JArr(items: seq<Json>)
    | JObj(members: seq<Member>)

  datatype Member = Member(key: string, value: Json)

  /** The Python type of a loaded value. */
  datatype PyType = NoneType | Bool | Int | FloatType | Str | List | Dict

  function TypeOf(v: Json): PyType
  {
    match v
    case JNull => NoneType
    case JBool(_) => Bool
    case JInt(_) => Int
    case JFloat(_) => FloatType
    case JStr(_) => Str
    case JArr(_) => List
    case JObj(_) => Dict
  }

  /** The exceptions a conversion can raise. */
  datatype PyError = TypeError | ValueError | OverflowError

  datatype Outcome<T> = Ok(value: T) | Raised(error: PyError)

  // --------------------------------------------------------------- dicts

  /** `k in d`. */
  predicate HasKey(ms: seq<Member>, k: string)
  {
    exists i :: 0 <= i < |ms| && ms[i].key == k
  }

  /** The position of key `k`, or |ms| when it is absent. */
  function Find(ms: seq<Member>, k: string): (i: nat)
    ensures i <= |ms|
    ensures i < |ms| <==> HasKey(ms, k)
    ensures i < |ms| ==> ms[i].key == k
    ensures forall j :: 0 <= j < i ==> ms[j].key != k
  {
    if ms == [] then 0
    else if ms[0].key == k then 0
    else
      var j := Find(ms[1..], k);
      assert forall l :: 1 <= l < |ms| ==> ms[l] == ms[1..][l - 1];
      1 + j
  }

  /** `d[k]` for a present key. */
  function Get(ms: seq<Member>, k: string): Json
    requires HasKey(ms, k)
  {
    ms[Find(ms, k)].value
  }

  function Keys(ms: seq<Member>): (r: seq<string>)
    ensures |r| == |ms| && forall i :: 0 <= i < |ms| ==> r[i] == ms[i].key
  {
    seq(|ms|, i requires 0 <= i < |ms| => ms[i].key)
  }

  /** What a Python dict guarantees: no key twice. */
  predicate UniqueKeys(ms: seq<Member>)
  {
    forall i, j :: 0 <= i < j < |ms| ==> ms[i].key != ms[j].key
  }

  /** `d[k] = v`. */
  function Put(ms: seq<Member>, k: string, v: Json): seq<Member>
  {
    var i := Find(ms, k);
    if i < |ms| then ms[i := Member(k, v)] else ms + [Member(k, v)]
  }

  lemma FindAt(ms: seq<Member>, k: string, j: nat)
    requires j < |ms| && ms[j].key == k
    requires forall l :: 0 <= l < j ==> ms[l].key != k
    ensures Find(ms, k) == j
  {
  }

  /** After `d[k] = v` the key is present and maps to `v`. */
  lemma PutGet(ms: seq<Member>, k: string, v: Json)
    ensures HasKey(Put(ms, k, v), k) && Get(Put(ms, k, v), k) == v
  {
    var r := Put(ms, k, v);
    var i := Find(ms, k);
    assert r[i].key == k;
    FindAt(r, k, i);
  }

  /** ... and every other key keeps its presence and its value. */
  lemma PutOther(ms: seq<Member>, k: string, v: Json, x: string)
    requires x != k
    ensures HasKey(Put(ms, k, v), x) <==> HasKey(ms, x)
    ensures HasKey(ms, x) ==> Get(Put(ms, k, v), x) == Get(ms, x)
  {
    var r := Put(ms, k, v);
    var i := Find(ms, k);
    assert forall l :: 0 <= l < |ms| ==> (r[l].key == x <==> ms[l].key == x);
    assert i == |ms| ==> r[|ms|].key != x;
    if HasKey(ms, x) {
      var j := Find(ms, x);
      FindAt(r, x, j);
    }
  }

  /** A present key keeps its place; an absent one goes last. */
  lemma PutKeys(ms: seq<Member>, k: string, v: Json)
    ensures Keys(Put(ms, k, v)) == if HasKey(ms, k) then Keys(ms) else Keys(ms) + [k]
  {
  }

  lemma PutUnique(ms: seq<Member>, k: string, v: Json)
    requires UniqueKeys(ms)
    ensures UniqueKeys(Put(ms, k, v))
  {
  }

  // ---------------------------------------------------------- conversions

  /** `bool(v)`: Python truthiness. */
  function Truthy(v: Json): bool
  {
    match v
    case JNull => false
    case JBool(b) => b
    case JInt(i) => i != 0
    case JFloat(f) => f != Finite(0.0)
    case JStr(s) => s != []
    case JArr(items) => items != []
    case JObj(ms) => ms != []
  }

  /** `int(x)` of a float: truncation toward zero. */
  function Trunc(x: real): (t: int)
    ensures x >= 0.0 ==> t as real <= x < t as real + 1.0
    ensures x < 0.0 ==> t as real - 1.0 < x <= t as real
  {
    if x >= 0.0 then x.Floor else -((-x).Floor)
  }

  /** `int(v)`. */
  function ToInt(v: Json): (r: Outcome<Json>)
    ensures r.Ok? ==> r.value.JInt?
    ensures v.JStr? ==> (r.Ok? <==> PyInt(v.s).Some?)
    ensures v.JFloat? && v.f.Finite? ==> r == Ok(JInt(Trunc(v.f.r)))
    ensures r == Raised(OverflowError) <==> v.JFloat? && (v.f.PosInf? || v.f.NegInf?)
  {
    match v
    case JBool(b) => Ok(JInt(if b then 1 else 0))
    case JInt(_) => Ok(v)
    case JFloat(f) =>
      (match f
       case Finite(x) => Ok(JInt(Trunc(x)))
       case NaN => Raised(ValueError)
       case _ => Raised(OverflowError))
    case JStr(s) => if PyInt(s).Some? then Ok(JInt(PyInt(s).value)) else Raised(ValueError)
    case _ => Raised(TypeError)
  }

  function Pow10(n: nat): (p: nat)
    ensures p >= 1
  {
    if n == 0 then 1 else 10 * Pow10(n - 1)
  }

  /** The value of a decimal numeral with at most one dot. */
  function MantissaValue(m: string): real
    requires Mantissa(m)
  {
    var d := FirstIndexOf(m, '.');
    if d < |m| then Decimal(DigitsValue(m[..d]), DigitsValue(m[d + 1..]), |m| - d - 1)
    else DigitsValue(m) as real
  }

  /** `whole.frac` with `places` digits after the dot. */
  function Decimal(whole: nat, frac: nat, places: nat): real
  {
    whole as real + frac as real / Pow10(places) as real
  }

  function ExponentValue(x: string): int
    requires ExponentDigits(x)
  {
    if x[0] == '-' then -(DigitsValue(x[1..]) as int)
    else if x[0] == '+' then DigitsValue(x[1..])
    else DigitsValue(x)
  }

  /** `x` times ten to the `e`. */
  function Scale(x: real, e: int): real
  {
    if e == 0 then x else if e > 0 then x * Pow10(e) as real else x / Pow10(-e) as real
  }

  /** `float(s)` for a str argument; None is the ValueError. */
  function PyFloat(s: string): (r: Option<Float>)
    ensures r.Some? <==> FloatSyntax(s)
  {
    var t := Strip(s);
    var u := AfterSign(t);
    if UnderscoresBetweenDigits(u) then
      match UnsignedFloat(Remove(u, '_'))
      case None => None
      case Some(x) => Some(if t != [] && t[0] == '-' then Negated(x) else x)
    else None
  }

  function Negated(x: Float): Float
  {
    match x
    case Finite(r) => Finite(-r)
    case PosInf => NegInf
    case NegInf => PosInf
    case NaN => NaN
  }

  /** A numeral after its sign. */
  function UnsignedFloat(u: string): (r: Option<Float>)
    ensures r.Some? <==> UnsignedSyntax(u)
  {
    var k := ExponentAt(u);
    if !UnsignedSyntax(u) then None
    else if Lower(u) == "inf" || Lower(u) == "infinity" then Some(PosInf)
    else if Lower(u) == "nan" then Some(NaN)
    else Some(Finite(Scale(MantissaValue(u[..k]), if k == |u| then 0 else ExponentValue(u[k + 1..]))))
  }

  /** The least magnitude of an int that float() refuses: 2^1024 - 2^970,
      halfway between the largest double and 2^1024, where rounding to
      nearest (ties to even) would leave the double range; float() raises
      OverflowError from there on. */
  const FloatOverflow: int := 0xFFFFFFFFFFFFFC00_0000000000000000_0000000000000000_0000000000000000_0000000000000000_0000000000000000_0000000000000000_0000000000000000_0000000000000000_0000000000000000_0000000000000000_0000000000000000_0000000000000000_0000000000000000_0000000000000000_0000000000000000

  /** `float(v)`. */
  function ToFloat(v: Json): (r: Outcome<Json>)
    ensures r.Ok? ==> r.value.JFloat?
    ensures v.JStr? ==> (r.Ok? <==> FloatSyntax(v.s))
    ensures v.JInt? ==> (r == Raised(OverflowError) <==> v.i <= -FloatOverflow || v.i >= FloatOverflow)
    ensures v.JInt? && -FloatOverflow < v.i < FloatOverflow ==> r == Ok(JFloat(Finite(v.i as real)))
    ensures r.Raised? ==> r.error == ValueError || r.error == TypeError || (v.JInt? && r.error == OverflowError)
  {
    match v
    case JBool(b) => Ok(JFloat(Finite(if b then 1.0 else 0.0)))
    case JInt(i) =>
      if i <= -FloatOverflow || i >= FloatOverflow then Raised(OverflowError)
      else Ok(JFloat(Finite(i as real)))
    case JFloat(_) => Ok(v)
    case JStr(s) => if PyFloat(s).Some? then Ok(JFloat(PyFloat(s).value)) else Raised(ValueError)
    case _ => Raised(TypeError)
  }

  /** `str(v)`. The repr of floats, lists and dicts is supplied by the
      caller as `render`. */
  function ToStr(v: Json, render: Json -> string): string
  {
    match v
    case JNull => "None"
    case JBool(b) => if b then "True" else "False"
    case JInt(i) => IntToString(i)
    case JStr(s) => s
    case _ => render(v)
  }

  /** `list(v)`: the characters of a str, a copy of a list, the keys of a
      dict; anything else is not iterable. */
  function ToList(v: Json): (r: Outcome<Json>)
    ensures r.Ok? ==> r.value.JArr?
    ensures r.Ok? <==> v.JStr? || v.JArr? || v.JObj?
  {
    match v
    case JStr(s) => Ok(JArr(seq(|s|, i requires 0 <= i < |s| => JStr([s[i]]))))
    case JArr(_) => Ok(v)
    case JObj(ms) => Ok(JArr(seq(|ms|, i requires 0 <= i < |ms| => JStr(ms[i].key))))
    case _ => Raised(TypeError)
  }

  /** One item of `dict(items)` as a key and a value: a two-character str,
      a two-element list headed by a str, or a dict with two keys (its keys
      are the pair). An item of another length raises ValueError; one that
      is not iterable, or whose key is not a str, raises TypeError. */
  function PairOf(x: Json): Outcome<Member>
  {
    match x
    case JStr(s) => if |s| == 2 then Ok(Member([s[0]], JStr([s[1]]))) else Raised(ValueError)
    case JArr(p) =>
      if |p| != 2 then Raised(ValueError)
      else if p[0].JStr? then Ok(Member(p[0].s, p[1]))
      else Raised(TypeError)
    case JObj(ms) => if |ms| == 2 then Ok(Member(ms[0].key, JStr(ms[1].key))) else Raised(ValueError)
    case _ => Raised(TypeError)
  }

  /** `dict(items)` for a list: the pairs are stored in order, a later pair
      overwriting an earlier one with the same key; the first item that is
      not a pair raises its error. */
  function PairsToDict(items: seq<Json>): (r: Outcome<seq<Member>>)
    ensures r.Ok? <==> forall i :: 0 <= i < |items| ==> PairOf(items[i]).Ok?
    ensures r.Raised? ==>
      exists i :: 0 <= i < |items| && PairOf(items[i]) == Raised(r.error) && forall j :: 0 <= j < i ==> PairOf(items[j]).Ok?
    ensures r.Ok? ==> UniqueKeys(r.value)
  {
    if items == [] then Ok([])
    else
      var n := |items| - 1;
      assert forall i :: 0 <= i < n ==> items[..n][i] == items[i];
      match PairsToDict(items[..n])
      case Raised(e) => Raised(e)
      case Ok(acc) =>
        match PairOf(items[n])
        case Raised(e) => Raised(e)
        case Ok(m) => PutUnique(acc, m.key, m.value); Ok(Put(acc, m.key, m.value))
  }

  /** `dict(v)`. */
  function ToDict(v: Json): (r: Outcome<Json>)
    ensures r.Ok? ==> r.value.JObj?
  {
    match v
    case JObj(_) => Ok(v)
    case JStr(s) => if s == [] then Ok(JObj([])) else Raised(ValueError)
    case JArr(items) =>
      (match PairsToDict(items)
       case Ok(ms) => Ok(JObj(ms))
       case Raised(e) => Raised(e))
    case _ => Raised(TypeError)
  }

  /** `t(v)` for the type `t` of a loaded value. */
  function Cast(t: PyType, v: Json, render: Json -> string): (r: Outcome<Json>)
    ensures r.Ok? ==> TypeOf(r.value) == t
    ensures t == Bool || t == Str ==> r.Ok?
    ensures t == NoneType ==> r == Raised(TypeError)
    ensures TypeOf(v) == t && t != NoneType ==> r == Ok(v)
  {
    match t
    case NoneType => Raised(TypeError)
    case Bool => Ok(JBool(Truthy(v)))
    case Int => ToInt(v)
    case FloatType => ToFloat(v)
    case Str => Ok(JStr(ToStr(v, render)))
    case List => ToList(v)
    case Dict => ToDict(v)
  }

  // -------------------------------------------------------------- lemmas

  /** Item i supplies the last pair with key k. */
  predicate LastOfKey(items: seq<Json>, i: int, k: string)
  {
    && 0 <= i < |items| && PairOf(items[i]).Ok? && PairOf(items[i]).value.key == k
    && forall j :: i < j < |items| && PairOf(items[j]).Ok? ==> PairOf(items[j]).value.key != k
  }

  /** `dict(items)` holds exactly the keys of its pairs... */
  lemma {:induction false} PairsToDictKeys(items: seq<Json>, k: string)
    requires PairsToDict(items).Ok?
    ensures HasKey(PairsToDict(items).value, k) <==> exists i :: 0 <= i < |items| && PairOf(items[i]).value.key == k
    decreases |items|
  {
    if items != [] {
      var n := |items| - 1;
      PairsToDictLast(items);
      PairsToDictKeys(items[..n], k);
      var m := PairOf(items[n]).value;
      if m.key == k {
        PutGet(PairsToDict(items[..n]).value, k, m.value);
      } else {
        PutOther(PairsToDict(items[..n]).value, m.key, m.value, k);
      }
    }
  }

  /** ...each with the value of the last pair that names it. */
  lemma {:induction false} PairsToDictValues(items: seq<Json>, k: string, i: int)
    requires PairsToDict(items).Ok? && LastOfKey(items, i, k)
    ensures HasKey(PairsToDict(items).value, k) && Get(PairsToDict(items).value, k) == PairOf(items[i]).value.value
    decreases |items|
  {
    var n := |items| - 1;
    PairsToDictLast(items);
    var m := PairOf(items[n]).value;
    if m.key == k {
      assert i == n;
      PutGet(PairsToDict(items[..n]).value, k, m.value);
    } else {
      assert LastOfKey(items[..n], i, k);
      PairsToDictValues(items[..n], k, i);
      PutOther(PairsToDict(items[..n]).value, m.key, m.value, k);
    }
  }

  /** The dict of a non-empty list is that of all but its last item, with
      the last pair put into it. */
  lemma PairsToDictLast(items: seq<Json>)
    requires items != [] && PairsToDict(items).Ok?
    ensures var n := |items| - 1;
      && (forall i :: 0 <= i < n ==> items[..n][i] == items[i])
      && PairsToDict(items[..n]).Ok? && PairOf(items[n]).Ok?
      && PairsToDict(items).value
         == Put(PairsToDict(items[..n]).value, PairOf(items[n]).value.key, PairOf(items[n]).value.value)
  {
  }

  /** The texts int() accepts, float() reads as the same number. */
  lemma IntTextFloatValue(s: string)
    requires PyInt(s).Some?
    ensures PyFloat(s) == Some(Finite(PyInt(s).value as real))
  {
    var t := Strip(s);
    var d := Remove(AfterSign(t), '_');
    IntTextDigits(s);
    DigitsFloatValue(d);
    var n := DigitsValue(d);
    PyFloatOfNumeral(s, Finite(n as real));
    SignedAsFloat(t[0] == '-', n, PyInt(s).value);
  }

  lemma SignedAsFloat(neg: bool, n: nat, v: int)
    requires v == if neg then -(n as int) else n
    ensures (if neg then Negated(Finite(n as real)) else Finite(n as real)) == Finite(v as real)
  {
  }

  /** float() of a text whose numeral after the sign reads as x is x, or
      its negation after a minus sign. */
  lemma PyFloatOfNumeral(s: string, x: Float)
    requires var u := AfterSign(Strip(s)); UnderscoresBetweenDigits(u) && UnsignedFloat(Remove(u, '_')) == Some(x)
    ensures var t := Strip(s); PyFloat(s) == Some(if t != [] && t[0] == '-' then Negated(x) else x)
  {
  }

  /** An int text is a sign and a digit run with underscores between its
      digits; its value is that of the run without them. */
  lemma IntTextDigits(s: string)
    requires PyInt(s).Some?
    ensures var t := Strip(s); var u := AfterSign(t); var d := Remove(u, '_');
      && t != [] && UnderscoresBetweenDigits(u) && d != [] && AllDigits(d)
      && PyInt(s).value == if t[0] == '-' then -(DigitsValue(d) as int) else DigitsValue(d)
  {
    var u := AfterSign(Strip(s));
    var d := Remove(u, '_');
    assert UnderscoreBetweenDigits(u, 0);
    RemoveChars(u, '_');
    assert u[0] in d;
  }

  /** A run of digits after the sign reads as its decimal value. */
  lemma DigitsFloatValue(u: string)
    requires u != [] && AllDigits(u)
    ensures UnsignedFloat(u) == Some(Finite(DigitsValue(u) as real))
  {
    DigitsAreNotExponent(u);
    assert u[..|u|] == u;
    assert Lower(u) != "inf" && Lower(u) != "infinity" && Lower(u) != "nan" by {
      assert Lower(u)[0] == u[0];
    }
  }

  /** `int()` of a str that is not an int text raises ValueError. */
  lemma NotIntTextRaises(s: string)
    requires PyInt(s).None?
    ensures ToInt(JStr(s)) == Raised(ValueError)
  {
  }

  /** A JSON `false` spelled as a string is truthy. */
  lemma FalseTextIsTrue()
    ensures Cast(Bool, JStr("false"), _ => "") == Ok(JBool(true))
  {
  }

  /** Converting a finite float rounds toward zero, not down. */
  lemma NegativeFloatTruncates()
    ensures ToInt(JFloat(Finite(-2.5))) == Ok(JInt(-2))
  {
  }

  /** A numeral with a dot is none of the special names. */
  lemma DottedIsNotSpecial(u: string, d: nat)
    requires d < |u| && u[d] == '.'
    ensures Lower(u) != "inf" && Lower(u) != "infinity" && Lower(u) != "nan"
  {
    assert Lower(u)[d] == '.';
  }

  lemma UnpaddedStrip(u: string)
    requires u != [] && !IsSpace(u[0]) && !IsSpace(u[|u| - 1])
    ensures Strip(u) == u
  {
    assert StripLeft(u) == u;
    assert StripRight(u) == u;
  }

  /** `float("a.b")` for digit strings a and b is a + b / 10^|b|. */
  lemma DecimalTextValue(a: string, b: string)
    requires a != [] && b != [] && AllDigits(a) && AllDigits(b)
    ensures PyFloat(a + "." + b) == Some(Finite(Decimal(DigitsValue(a), DigitsValue(b), |b|)))
  {
    var u := a + "." + b;
    DecimalShape(a, b);
    UnpaddedStrip(u);
    DottedIsNotSpecial(u, |a|);
    PlainNumeral(u);
    MantissaOfDecimal(u, a, b);
    UnsignedText(u);
  }

  lemma UnsignedText(u: string)
    requires u != [] && Strip(u) == u && u[0] != '+' && u[0] != '-' && '_' !in u
    ensures PyFloat(u) == UnsignedFloat(u)
  {
    assert AfterSign(u) == u;
    NoUnderscores(u);
  }

  lemma PlainNumeral(u: string)
    requires Mantissa(u) && ExponentAt(u) == |u|
    requires Lower(u) != "inf" && Lower(u) != "infinity" && Lower(u) != "nan"
    ensures UnsignedFloat(u) == Some(Finite(MantissaValue(u)))
  {
    assert u[..|u|] == u;
  }

  lemma DecimalShape(a: string, b: string)
    requires a != [] && b != [] && AllDigits(a) && AllDigits(b)
    ensures var u := a + "." + b;
      && !IsSpace(u[0]) && !IsSpace(u[|u| - 1]) && u[0] != '+' && u[0] != '-'
      && ExponentAt(u) == |u| && FirstIndexOf(u, '.') == |a| && u[|a|] == '.'
      && u[..|a|] == a && u[|a| + 1..] == b && Mantissa(u) && '_' !in u
  {
    var u := a + "." + b;
    assert forall j :: 0 <= j < |u| ==> (u[j] != 'e' && u[j] != 'E' && u[j] != '_');
    assert forall j :: 0 <= j < |a| ==> u[j] != '.';
    assert u[|a|] == '.';
    assert u[..|a|] == a && u[|a| + 1..] == b;
  }

  lemma MantissaOfDecimal(u: string, a: string, b: string)
    requires Mantissa(u) && FirstIndexOf(u, '.') == |a| < |u|
    requires u[..|a|] == a && u[|a| + 1..] == b && AllDigits(a) && AllDigits(b)
    ensures MantissaValue(u) == Decimal(DigitsValue(a), DigitsValue(b), |b|)
  {
  }
}
