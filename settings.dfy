/** The camera settings tree shared by both services: a JSON object whose
    settings are "holders" (objects with a `current` entry) grouped in
    nested sections. Three operations walk it: `flatten_settings` (the
    FastAPI service's view for the device), `apply_updates` inside the
    FastAPI `update_settings` endpoint, and the Flask service's
    `update_settings`. Both update walks assign into the loaded tree in
    place; a loaded JSON tree shares no sub-objects, so the model threads
    the tree through as a value. */
module SettingsTree {
  import opened Text
  import opened JsonValue

  /** `isinstance(v, dict) and 'current' in v`. */
  predicate IsHolder(v: Json)
  {
    v.JObj? && HasKey(v.members, "current")
  }

  predicate KeysPrefixed(ms: seq<Member>, prefix: string)
  {
    forall i :: 0 <= i < |ms| ==> prefix <= ms[i].key
  }

  // ------------------------------------------------------ flatten_settings

  /** `acc.update(other)`. */
  function Update(acc: seq<Member>, other: seq<Member>): seq<Member>
  {
    if other == [] then acc
    else
      var last := other[|other| - 1];
      Put(Update(acc, other[..|other| - 1]), last.key, last.value)
  }

  /** `flatten_settings(data, prefix)`: a holder under key k becomes the
      entry prefix+k with the holder's current value; any other object is
      flattened under prefix+k+"_" and merged in; other values are dropped. */
  function Flatten(data: seq<Member>, prefix: string): seq<Member>
  {
    if data == [] then []
    else
      var acc := Flatten(data[..|data| - 1], prefix);
      var m := data[|data| - 1];
      match m.value
      case JObj(inner) =>
        if HasKey(inner, "current") then Put(acc, prefix + m.key, Get(inner, "current"))
        else Update(acc, Flatten(inner, prefix + m.key + "_"))
      case _ => acc
  }

  method FlattenSettings(data: seq<Member>, prefix: string) returns (result: seq<Member>)
    ensures result == Flatten(data, prefix)
    decreases data
  {
    result := [];
    var i := 0;
    while i < |data|
      invariant i <= |data| && result == Flatten(data[..i], prefix)
      decreases |data| - i
    {
      assert data[..i + 1][..i] == data[..i];
      var m := data[i];
      match m.value {
        case JObj(inner) =>
          if HasKey(inner, "current") {
            result := Put(result, prefix + m.key, Get(inner, "current"));
          } else {
            var sub := FlattenSettings(inner, prefix + m.key + "_");
            result := Update(result, sub);
          }
        case _ =>
      }
      i := i + 1;
    }
    assert data[..i] == data;
  }

  lemma PutKeepsKey(ms: seq<Member>, k: string, v: Json, x: string)
    requires HasKey(ms, x)
    ensures HasKey(Put(ms, k, v), x)
  {
    if x == k {
      PutGet(ms, k, v);
    } else {
      PutOther(ms, k, v, x);
    }
  }

  lemma {:induction false} UpdateKeepsKey(acc: seq<Member>, other: seq<Member>, x: string)
    requires HasKey(acc, x)
    ensures HasKey(Update(acc, other), x)
    decreases |other|
  {
    if other != [] {
      var last := other[|other| - 1];
      UpdateKeepsKey(acc, other[..|other| - 1], x);
      PutKeepsKey(Update(acc, other[..|other| - 1]), last.key, last.value, x);
    }
  }

  lemma {:induction false} UpdateUnique(acc: seq<Member>, other: seq<Member>)
    requires UniqueKeys(acc)
    ensures UniqueKeys(Update(acc, other))
    decreases |other|
  {
    if other != [] {
      var last := other[|other| - 1];
      UpdateUnique(acc, other[..|other| - 1]);
      PutUnique(Update(acc, other[..|other| - 1]), last.key, last.value);
    }
  }

  lemma {:induction false} UpdatePrefixed(acc: seq<Member>, other: seq<Member>, prefix: string)
    requires KeysPrefixed(acc, prefix) && KeysPrefixed(other, prefix)
    ensures KeysPrefixed(Update(acc, other), prefix)
    decreases |other|
  {
    if other != [] {
      var last := other[|other| - 1];
      UpdatePrefixed(acc, other[..|other| - 1], prefix);
      PutKeys(Update(acc, other[..|other| - 1]), last.key, last.value);
      var r := Update(acc, other);
      assert forall i :: 0 <= i < |r| ==> r[i].key == Keys(r)[i];
    }
  }

  /** After `acc.update(other)` each key of `other` maps to its value there. */
  lemma {:induction false} UpdateGet(acc: seq<Member>, other: seq<Member>, j: nat)
    requires UniqueKeys(other) && j < |other|
    ensures HasKey(Update(acc, other), other[j].key)
    ensures Get(Update(acc, other), other[j].key) == other[j].value
    decreases |other|
  {
    var n := |other| - 1;
    var last := other[n];
    var before := Update(acc, other[..n]);
    if j == n {
      PutGet(before, last.key, last.value);
    } else {
      assert other[..n][j] == other[j];
      UpdateGet(acc, other[..n], j);
      PutOther(before, last.key, last.value, other[j].key);
    }
  }

  /** Every flattened key starts with the prefix, and no key occurs twice. */
  lemma {:induction false} FlattenShape(data: seq<Member>, prefix: string)
    ensures KeysPrefixed(Flatten(data, prefix), prefix)
    ensures UniqueKeys(Flatten(data, prefix))
    decreases data
  {
    if data != [] {
      var acc := Flatten(data[..|data| - 1], prefix);
      var m := data[|data| - 1];
      FlattenShape(data[..|data| - 1], prefix);
      match m.value
      case JObj(inner) =>
        if HasKey(inner, "current") {
          PutUnique(acc, prefix + m.key, Get(inner, "current"));
          PutKeys(acc, prefix + m.key, Get(inner, "current"));
          var r := Put(acc, prefix + m.key, Get(inner, "current"));
          assert forall i :: 0 <= i < |r| ==> r[i].key == Keys(r)[i];
        } else {
          var sub := Flatten(inner, prefix + m.key + "_");
          FlattenShape(inner, prefix + m.key + "_");
          assert forall i :: 0 <= i < |sub| ==> prefix <= (prefix + m.key + "_") <= sub[i].key;
          UpdateUnique(acc, sub);
          UpdatePrefixed(acc, sub, prefix);
        }
      case _ =>
    }
  }

  /** A holder anywhere at this level yields the key prefix+k, whatever
      follows it. */
  lemma {:induction false} FlattenHolderKey(data: seq<Member>, prefix: string, i: nat)
    requires i < |data| && IsHolder(data[i].value)
    ensures HasKey(Flatten(data, prefix), prefix + data[i].key)
    decreases data
  {
    var n := |data| - 1;
    var acc := Flatten(data[..n], prefix);
    var m := data[n];
    if i == n {
      PutGet(acc, prefix + m.key, Get(m.value.members, "current"));
    } else {
      assert data[..n][i] == data[i];
      FlattenHolderKey(data[..n], prefix, i);
      match m.value
      case JObj(inner) =>
        if HasKey(inner, "current") {
          PutKeepsKey(acc, prefix + m.key, Get(inner, "current"), prefix + data[i].key);
        } else {
          UpdateKeepsKey(acc, Flatten(inner, prefix + m.key + "_"), prefix + data[i].key);
        }
      case _ =>
    }
  }

  /** A holder maps prefix+k to its current value. */
  lemma FlattenHolder(data: seq<Member>, prefix: string, k: string, v: Json)
    requires IsHolder(v)
    ensures HasKey(Flatten(data + [Member(k, v)], prefix), prefix + k)
    ensures Get(Flatten(data + [Member(k, v)], prefix), prefix + k) == Get(v.members, "current")
  {
    assert (data + [Member(k, v)])[..|data|] == data;
    PutGet(Flatten(data, prefix), prefix + k, Get(v.members, "current"));
  }

  /** A section is flattened under prefix+k+"_" and every one of its
      entries lands in the result with its value. */
  lemma FlattenSection(data: seq<Member>, prefix: string, k: string, v: Json, j: nat)
    requires v.JObj? && !IsHolder(v)
    requires j < |Flatten(v.members, prefix + k + "_")|
    ensures var e := Flatten(v.members, prefix + k + "_")[j];
      && prefix + k + "_" <= e.key
      && HasKey(Flatten(data + [Member(k, v)], prefix), e.key)
      && Get(Flatten(data + [Member(k, v)], prefix), e.key) == e.value
  {
    assert (data + [Member(k, v)])[..|data|] == data;
    FlattenShape(v.members, prefix + k + "_");
    UpdateGet(Flatten(data, prefix), Flatten(v.members, prefix + k + "_"), j);
  }

  /** Values that are not objects are dropped. */
  lemma FlattenDropsLeaf(data: seq<Member>, prefix: string, k: string, v: Json)
    requires !v.JObj?
    ensures Flatten(data + [Member(k, v)], prefix) == Flatten(data, prefix)
  {
    assert (data + [Member(k, v)])[..|data|] == data;
  }

  // ------------------------------------- apply_updates (FastAPI service)

  /** `k in container` for a loaded value. */
  function PyIn(container: Json, k: string): Outcome<bool>
  {
    match container
    case JObj(ms) => Ok(HasKey(ms, k))
    case JStr(s) => Ok(Contains(s, k))
    case JArr(items) => Ok(JStr(k) in items)
    case _ => Raised(TypeError)
  }

  /** The new `current` value of a holder: converted by the prior value's
      type, bool tested before int, then int, then float; any other prior
      value is replaced as is. */
  function Coerce(prior: Json, v: Json): (r: Outcome<Json>)
    ensures r.Ok? && TypeOf(prior) in {Bool, Int, FloatType} ==> TypeOf(r.value) == TypeOf(prior)
    ensures TypeOf(prior) != Int && TypeOf(prior) != FloatType ==> r.Ok?
    ensures TypeOf(prior) !in {Bool, Int, FloatType} ==> r == Ok(v)
  {
    match prior
    case JBool(_) => Ok(JBool(Truthy(v)))
    case JInt(_) => ToInt(v)
    case JFloat(_) => ToFloat(v)
    case _ => Ok(v)
  }

  /** `apply_updates(base, updates)`: the tree it leaves, or the exception
      it raises. */
  function Applied(base: Json, updates: seq<Member>): Outcome<Json>
    decreases updates
  {
    if updates == [] then Ok(base)
    else
      match Applied(base, updates[..|updates| - 1])
      case Raised(e) => Raised(e)
      case Ok(b) =>
        var m := updates[|updates| - 1];
        if b.JObj? then
          var ms := b.members;
          if !HasKey(ms, m.key) then Ok(b)
          else if m.value.JObj? then
            match Applied(Get(ms, m.key), m.value.members)
            case Raised(e) => Raised(e)
            case Ok(nv) => Ok(JObj(Put(ms, m.key, nv)))
          else if IsHolder(Get(ms, m.key)) then
            var holder := Get(ms, m.key).members;
            match Coerce(Get(holder, "current"), m.value)
            case Raised(e) => Raised(e)
            case Ok(c) => Ok(JObj(Put(ms, m.key, JObj(Put(holder, "current", c)))))
          else Ok(b)
        else
          // `key in base` on a value that is not a dict raises, or is
          // followed by `base[key]`, which raises for a str or a list.
          match PyIn(b, m.key)
          case Raised(e) => Raised(e)
          case Ok(found) => if found then Raised(TypeError) else Ok(b)
  }

  lemma {:induction false} AppliedStops(base: Json, updates: seq<Member>, j: nat)
    requires j <= |updates| && Applied(base, updates[..j]).Raised?
    ensures Applied(base, updates) == Applied(base, updates[..j])
    decreases |updates| - j
  {
    if j < |updates| {
      assert updates[..j + 1][..j] == updates[..j];
      AppliedStops(base, updates, j + 1);
    } else {
      assert updates[..j] == updates;
    }
  }

  method ApplyUpdates(base: Json, updates: seq<Member>) returns (r: Outcome<Json>)
    ensures r == Applied(base, updates)
    decreases updates, 1
  {
    var cur := base;
    var i := 0;
    while i < |updates|
      invariant i <= |updates| && Applied(base, updates[..i]) == Ok(cur)
      decreases |updates| - i
    {
      var step := ApplyMember(base, updates, i, cur);
      if step.Raised? {
        r := step;
        AppliedStops(base, updates, i + 1);
        return;
      }
      cur := step.value;
      i := i + 1;
    }
    assert updates[..i] == updates;
    r := Ok(cur);
  }

  /** One turn of the loop over `updates.items()`: the member at index i
      applied to what the earlier members made of the base. */
  method ApplyMember(base: Json, updates: seq<Member>, i: nat, cur: Json) returns (r: Outcome<Json>)
    requires i < |updates| && Applied(base, updates[..i]) == Ok(cur)
    ensures r == Applied(base, updates[..i + 1])
    decreases updates, 0
  {
    assert updates[..i + 1][..i] == updates[..i];
    var key := updates[i].key;
    var value := updates[i].value;
    r := Ok(cur);
    if !cur.JObj? {
      var inside := PyIn(cur, key);
      if inside.Raised? {
        r := Raised(inside.error);
      } else if inside.value {
        r := Raised(TypeError);
      }
    } else if HasKey(cur.members, key) {
      var prior := Get(cur.members, key);
      if value.JObj? {
        var sub := ApplyUpdates(prior, value.members);
        if sub.Raised? {
          r := sub;
        } else {
          r := Ok(JObj(Put(cur.members, key, sub.value)));
        }
      } else if IsHolder(prior) {
        var c := Coerce(Get(prior.members, "current"), value);
        if c.Raised? {
          r := Raised(c.error);
        } else {
          r := Ok(JObj(Put(cur.members, key, JObj(Put(prior.members, "current", c.value)))));
        }
      }
    }
  }

  /** Outside `current` values, `b` has the keys of `a` in `a`'s order at
      every depth, and `a`'s other values. */
  predicate Preserved(a: Json, b: Json)
    decreases a
  {
    match a
    case JObj(ms) =>
      && b.JObj? && Keys(b.members) == Keys(ms)
      && forall i :: 0 <= i < |ms| && ms[i].key != "current" ==> Preserved(ms[i].value, b.members[i].value)
    case _ => b == a
  }

  lemma {:induction false} PreservedRefl(a: Json)
    ensures Preserved(a, a)
    decreases a
  {
    match a
    case JObj(ms) =>
      forall i | 0 <= i < |ms| && ms[i].key != "current"
        ensures Preserved(ms[i].value, ms[i].value)
      {
        PreservedRefl(ms[i].value);
      }
    case _ =>
  }

  lemma {:induction false} PreservedTrans(a: Json, b: Json, c: Json)
    requires Preserved(a, b) && Preserved(b, c)
    ensures Preserved(a, c)
    decreases a
  {
    match a
    case JObj(ms) =>
      forall i | 0 <= i < |ms| && ms[i].key != "current"
        ensures Preserved(ms[i].value, c.members[i].value)
      {
        assert b.members[i].key == ms[i].key;
        PreservedTrans(ms[i].value, b.members[i].value, c.members[i].value);
      }
    case _ =>
  }

  /** Replacing one present entry keeps the rest of the object. */
  lemma PreservedPut(ms: seq<Member>, k: string, nv: Json)
    requires HasKey(ms, k)
    requires k == "current" || Preserved(Get(ms, k), nv)
    ensures Preserved(JObj(ms), JObj(Put(ms, k, nv)))
  {
    var i := Find(ms, k);
    var r := Put(ms, k, nv);
    forall j | 0 <= j < |ms| && ms[j].key != "current"
      ensures Preserved(ms[j].value, r[j].value)
    {
      if j != i {
        PreservedRefl(ms[j].value);
      }
    }
  }

  /** A holder whose current value is replaced is kept apart from it. */
  lemma PreservedHolder(holder: seq<Member>, c: Json)
    requires HasKey(holder, "current")
    ensures Preserved(JObj(holder), JObj(Put(holder, "current", c)))
  {
    PreservedPut(holder, "current", c);
  }

  /** apply_updates changes only `current` values: no key is added,
      removed or moved, at any depth, and no other value changes. */
  lemma {:induction false} AppliedPreserves(base: Json, updates: seq<Member>)
    requires Applied(base, updates).Ok?
    ensures Preserved(base, Applied(base, updates).value)
    decreases updates
  {
    if updates == [] {
      PreservedRefl(base);
    } else {
      var n := |updates| - 1;
      AppliedPreserves(base, updates[..n]);
      var b := Applied(base, updates[..n]).value;
      var m := updates[n];
      var b' := Applied(base, updates).value;
      if b.JObj? && HasKey(b.members, m.key) {
        var ms := b.members;
        if m.value.JObj? {
          AppliedPreserves(Get(ms, m.key), m.value.members);
          PreservedPut(ms, m.key, Applied(Get(ms, m.key), m.value.members).value);
        } else if IsHolder(Get(ms, m.key)) {
          var holder := Get(ms, m.key).members;
          var c := Coerce(Get(holder, "current"), m.value).value;
          PreservedHolder(holder, c);
          PreservedPut(ms, m.key, JObj(Put(holder, "current", c)));
        } else {
          PreservedRefl(b);
        }
      } else {
        PreservedRefl(b);
      }
      PreservedTrans(base, b, b');
    }
  }

  lemma SameKeys(ms: seq<Member>, ns: seq<Member>, k: string)
    requires Keys(ms) == Keys(ns)
    ensures HasKey(ms, k) <==> HasKey(ns, k)
  {
    if HasKey(ms, k) {
      var i := Find(ms, k);
      assert Keys(ns)[i] == k;
    }
    if HasKey(ns, k) {
      var i := Find(ns, k);
      assert Keys(ms)[i] == k;
    }
  }

  /** An update for a key the base lacks is ignored. */
  lemma UnknownKeyIgnored(ms: seq<Member>, updates: seq<Member>, k: string, v: Json)
    requires !HasKey(ms, k)
    ensures Applied(JObj(ms), updates + [Member(k, v)]) == Applied(JObj(ms), updates)
  {
    assert (updates + [Member(k, v)])[..|updates|] == updates;
    var before := Applied(JObj(ms), updates);
    if before.Ok? {
      AppliedPreserves(JObj(ms), updates);
      SameKeys(ms, before.value.members, k);
    }
  }

  /** A present entry that is not a holder is left alone by a value that is
      not an object. */
  lemma LeafKept(ms: seq<Member>, updates: seq<Member>, ns: seq<Member>, k: string, v: Json)
    requires Applied(JObj(ms), updates) == Ok(JObj(ns))
    requires HasKey(ns, k) && !IsHolder(Get(ns, k)) && !v.JObj?
    ensures Applied(JObj(ms), updates + [Member(k, v)]) == Ok(JObj(ns))
  {
    assert (updates + [Member(k, v)])[..|updates|] == updates;
  }

  /** A holder's current value takes the update, converted as `Coerce`
      says; an exception ends the walk; every other entry stays put. */
  lemma HolderCoerced(ms: seq<Member>, updates: seq<Member>, ns: seq<Member>, k: string, v: Json)
    requires Applied(JObj(ms), updates) == Ok(JObj(ns))
    requires HasKey(ns, k) && IsHolder(Get(ns, k)) && !v.JObj?
    ensures var c := Coerce(Get(Get(ns, k).members, "current"), v);
      var r := Applied(JObj(ms), updates + [Member(k, v)]);
      && (c.Raised? ==> r == Raised(c.error))
      && (c.Ok? ==>
            (r.Ok? && r.value.JObj? && HasKey(r.value.members, k)
             && IsHolder(Get(r.value.members, k))
             && Get(Get(r.value.members, k).members, "current") == c.value
             && forall x :: x != k && HasKey(ns, x) ==> HasKey(r.value.members, x) && Get(r.value.members, x) == Get(ns, x)))
  {
    assert (updates + [Member(k, v)])[..|updates|] == updates;
    var holder := Get(ns, k).members;
    var c := Coerce(Get(holder, "current"), v);
    if c.Ok? {
      var h := Put(holder, "current", c.value);
      PutGet(holder, "current", c.value);
      PutGet(ns, k, JObj(h));
      forall x | x != k && HasKey(ns, x)
        ensures HasKey(Put(ns, k, JObj(h)), x) && Get(Put(ns, k, JObj(h)), x) == Get(ns, x)
      {
        PutOther(ns, k, JObj(h), x);
      }
    }
  }

  /** An object value for a present key is applied to that entry. */
  lemma SectionRecurses(ms: seq<Member>, updates: seq<Member>, ns: seq<Member>, k: string, sub: seq<Member>)
    requires Applied(JObj(ms), updates) == Ok(JObj(ns)) && HasKey(ns, k)
    ensures var inner := Applied(Get(ns, k), sub);
      var r := Applied(JObj(ms), updates + [Member(k, JObj(sub))]);
      && (inner.Raised? ==> r == Raised(inner.error))
      && (inner.Ok? ==>
            (r.Ok? && r.value.JObj? && HasKey(r.value.members, k)
             && Get(r.value.members, k) == inner.value
             && forall x :: x != k && HasKey(ns, x) ==> HasKey(r.value.members, x) && Get(r.value.members, x) == Get(ns, x)))
  {
    assert (updates + [Member(k, JObj(sub))])[..|updates|] == updates;
    var inner := Applied(Get(ns, k), sub);
    if inner.Ok? {
      PutGet(ns, k, inner.value);
      forall x | x != k && HasKey(ns, x)
        ensures HasKey(Put(ns, k, inner.value), x) && Get(Put(ns, k, inner.value), x) == Get(ns, x)
      {
        PutOther(ns, k, inner.value, x);
      }
    }
  }

  /** For bool, int and float holders the FastAPI conversion is exactly the
      Flask one, `type(prior)(v)`. */
  lemma CoerceIsCast(prior: Json, v: Json, render: Json -> string)
    requires TypeOf(prior) in {Bool, Int, FloatType}
    ensures Coerce(prior, v) == Cast(TypeOf(prior), v, render)
  {
  }

  /** Converting again with the same update changes nothing. */
  lemma CoerceIdempotent(prior: Json, v: Json)
    requires Coerce(prior, v).Ok?
    ensures Coerce(Coerce(prior, v).value, v) == Coerce(prior, v)
  {
  }

  // ---------------------------------------- update_settings (Flask service)

  /** `update_settings(current, updates)` of the Flask service: the tree it
      leaves, or the exception that escapes it. A failed conversion
      (TypeError or ValueError) is logged and the entry kept; an
      OverflowError is not caught. */
  function Merged(current: Json, updates: seq<Member>, render: Json -> string): Outcome<Json>
    decreases updates
  {
    if updates == [] then Ok(current)
    else
      match Merged(current, updates[..|updates| - 1], render)
      case Raised(e) => Raised(e)
      case Ok(c) =>
        var m := updates[|updates| - 1];
        if !c.JObj? then
          // `key in current`, `current[key]` and `current[key] = value`
          // all raise on a value that is not a dict.
          Raised(TypeError)
        else
          var ms := c.members;
          if m.value.JObj? && HasKey(ms, m.key) then
            match Merged(Get(ms, m.key), m.value.members, render)
            case Raised(e) => Raised(e)
            case Ok(nv) => Ok(JObj(Put(ms, m.key, nv)))
          else if HasKey(ms, m.key) then CastMember(c, m, render)
          else Ok(JObj(Put(ms, m.key, m.value)))
  }

  /** One member of the Flask walk whose key is present and whose value is
      not an object: the value is converted to the type of the prior one
      (of its `current` for a holder); a failed conversion other than an
      overflow keeps the tree. */
  function CastMember(c: Json, m: Member, render: Json -> string): Outcome<Json>
    requires c.JObj? && HasKey(c.members, m.key)
  {
    var ms := c.members;
    var prior := Get(ms, m.key);
    if IsHolder(prior) then
      match Cast(TypeOf(Get(prior.members, "current")), m.value, render)
      case Ok(nv) => Ok(JObj(Put(ms, m.key, JObj(Put(prior.members, "current", nv)))))
      case Raised(e) => if e == OverflowError then Raised(e) else Ok(c)
    else
      match Cast(TypeOf(prior), m.value, render)
      case Ok(nv) => Ok(JObj(Put(ms, m.key, nv)))
      case Raised(e) => if e == OverflowError then Raised(e) else Ok(c)
  }

  lemma {:induction false} MergedStops(current: Json, updates: seq<Member>, render: Json -> string, j: nat)
    requires j <= |updates| && Merged(current, updates[..j], render).Raised?
    ensures Merged(current, updates, render) == Merged(current, updates[..j], render)
    decreases |updates| - j
  {
    if j < |updates| {
      assert updates[..j + 1][..j] == updates[..j];
      MergedStops(current, updates, render, j + 1);
    } else {
      assert updates[..j] == updates;
    }
  }

  method UpdateSettings(current: Json, updates: seq<Member>, render: Json -> string) returns (r: Outcome<Json>)
    ensures r == Merged(current, updates, render)
    decreases updates, 1
  {
    var cur := current;
    var i := 0;
    while i < |updates|
      invariant i <= |updates| && Merged(current, updates[..i], render) == Ok(cur)
      decreases |updates| - i
    {
      var step := MergeMember(current, updates, i, cur, render);
      if step.Raised? {
        r := step;
        MergedStops(current, updates, render, i + 1);
        return;
      }
      cur := step.value;
      i := i + 1;
    }
    assert updates[..i] == updates;
    r := Ok(cur);
  }

  /** One turn of the Flask loop: the member at index i merged into what
      the earlier members made of the tree. */
  method MergeMember(current: Json, updates: seq<Member>, i: nat, cur: Json, render: Json -> string) returns (r: Outcome<Json>)
    requires i < |updates| && Merged(current, updates[..i], render) == Ok(cur)
    ensures r == Merged(current, updates[..i + 1], render)
    decreases updates, 0
  {
    assert updates[..i + 1][..i] == updates[..i];
    var key := updates[i].key;
    var value := updates[i].value;
    if !cur.JObj? {
      r := Raised(TypeError);
    } else if value.JObj? && HasKey(cur.members, key) {
      var sub := UpdateSettings(Get(cur.members, key), value.members, render);
      if sub.Raised? {
        r := sub;
      } else {
        r := Ok(JObj(Put(cur.members, key, sub.value)));
      }
    } else if HasKey(cur.members, key) {
      var prior := Get(cur.members, key);
      var target := if IsHolder(prior) then Get(prior.members, "current") else prior;
      var nv := Cast(TypeOf(target), value, render);
      if nv == Raised(OverflowError) {
        r := nv;
      } else if nv.Ok? {
        r := Ok(JObj(Put(cur.members, key, if IsHolder(prior) then JObj(Put(prior.members, "current", nv.value)) else nv.value)));
      } else {
        r := Ok(cur);
      }
    } else {
      r := Ok(JObj(Put(cur.members, key, value)));
    }
  }

  /** The Flask walk keeps every key of an object in place with a value of
      its prior type, and appends keys only from the updates. */
  predicate Grown(ms: seq<Member>, ns: seq<Member>, updates: seq<Member>)
  {
    && |ms| <= |ns|
    && (forall i :: 0 <= i < |ms| ==> ns[i].key == ms[i].key && TypeOf(ns[i].value) == TypeOf(ms[i].value))
    && (forall j :: |ms| <= j < |ns| ==> ns[j].key in Keys(updates))
  }

  lemma {:induction false} MergedGrows(ms: seq<Member>, updates: seq<Member>, render: Json -> string)
    requires Merged(JObj(ms), updates, render).Ok?
    ensures Merged(JObj(ms), updates, render).value.JObj?
    ensures Grown(ms, Merged(JObj(ms), updates, render).value.members, updates)
    decreases updates, 1
  {
    if updates == [] {
      assert Grown(ms, ms, updates);
    } else {
      var n := |updates| - 1;
      MergedGrows(ms, updates[..n], render);
      GrownStep(ms, updates, render);
    }
  }

  /** The last member of the updates keeps the walk's result grown. */
  lemma GrownStep(ms: seq<Member>, updates: seq<Member>, render: Json -> string)
    requires updates != [] && Merged(JObj(ms), updates, render).Ok?
    requires Merged(JObj(ms), updates[..|updates| - 1], render).Ok?
    requires Merged(JObj(ms), updates[..|updates| - 1], render).value.JObj?
    requires Grown(ms, Merged(JObj(ms), updates[..|updates| - 1], render).value.members, updates[..|updates| - 1])
    ensures Merged(JObj(ms), updates, render).value.JObj?
    ensures Grown(ms, Merged(JObj(ms), updates, render).value.members, updates)
    decreases updates, 0
  {
    var n := |updates| - 1;
    var u := updates[..n];
    var m := updates[n];
    LastSplit(updates);
    var ns := Merged(JObj(ms), u, render).value.members;
    GrownWider(ms, ns, u, m);
    var r := Merged(JObj(ms), updates, render).value;
    if m.value.JObj? && HasKey(ns, m.key) {
      var nv := Merged(Get(ns, m.key), m.value.members, render).value;
      assert r == JObj(Put(ns, m.key, nv));
      MergedIsObject(Get(ns, m.key), m.value.members, render);
      GrownPut(ms, ns, updates, m.key, nv);
    } else if HasKey(ns, m.key) {
      assert Merged(JObj(ms), updates, render) == CastMember(JObj(ns), m, render);
      CastMemberGrows(ms, ns, updates, m, render);
    } else {
      assert r == JObj(Put(ns, m.key, m.value));
      GrownAppend(ms, ns, u, m);
    }
  }

  lemma LastSplit<T>(s: seq<T>)
    requires s != []
    ensures s[..|s| - 1] + [s[|s| - 1]] == s
  {
  }

  /** A converted value has the type of the one it replaces. */
  lemma CastMemberGrows(ms: seq<Member>, ns: seq<Member>, updates: seq<Member>, m: Member, render: Json -> string)
    requires Grown(ms, ns, updates) && HasKey(ns, m.key)
    requires CastMember(JObj(ns), m, render).Ok?
    ensures CastMember(JObj(ns), m, render).value.JObj?
    ensures Grown(ms, CastMember(JObj(ns), m, render).value.members, updates)
  {
    var prior := Get(ns, m.key);
    if IsHolder(prior) {
      var nv := Cast(TypeOf(Get(prior.members, "current")), m.value, render);
      if nv.Ok? {
        GrownPut(ms, ns, updates, m.key, JObj(Put(prior.members, "current", nv.value)));
      }
    } else {
      var nv := Cast(TypeOf(prior), m.value, render);
      if nv.Ok? {
        GrownPut(ms, ns, updates, m.key, nv.value);
      }
    }
  }

  lemma GrownWider(ms: seq<Member>, ns: seq<Member>, u: seq<Member>, m: Member)
    requires Grown(ms, ns, u)
    ensures Grown(ms, ns, u + [m])
  {
    assert forall j :: 0 <= j < |u| ==> Keys(u + [m])[j] == Keys(u)[j];
    assert forall x :: x in Keys(u) ==> x in Keys(u + [m]);
  }

  lemma GrownPut(ms: seq<Member>, ns: seq<Member>, u: seq<Member>, k: string, v: Json)
    requires Grown(ms, ns, u) && HasKey(ns, k) && TypeOf(v) == TypeOf(Get(ns, k))
    ensures Grown(ms, Put(ns, k, v), u)
  {
  }

  lemma GrownAppend(ms: seq<Member>, ns: seq<Member>, u: seq<Member>, m: Member)
    requires Grown(ms, ns, u) && !HasKey(ns, m.key)
    ensures Grown(ms, Put(ns, m.key, m.value), u + [m])
  {
    GrownWider(ms, ns, u, m);
    assert Keys(u + [m])[|u|] == m.key;
  }

  lemma MergedIsObject(current: Json, updates: seq<Member>, render: Json -> string)
    requires Merged(current, updates, render).Ok?
    ensures TypeOf(Merged(current, updates, render).value) == TypeOf(current)
    decreases updates, 2
  {
    if current.JObj? {
      MergedGrows(current.members, updates, render);
    } else {
      MergedNonObject(current, updates, render);
    }
  }

  /** On a value that is not an object only an empty update succeeds. */
  lemma {:induction false} MergedNonObject(current: Json, updates: seq<Member>, render: Json -> string)
    requires !current.JObj? && Merged(current, updates, render).Ok?
    ensures updates == [] && Merged(current, updates, render) == Ok(current)
    decreases |updates|
  {
    if updates != [] {
      MergedNonObject(current, updates[..|updates| - 1], render);
    }
  }

  /** An unknown key is added with the value as sent. */
  lemma UnknownKeyAdded(ms: seq<Member>, updates: seq<Member>, ns: seq<Member>, k: string, v: Json, render: Json -> string)
    requires Merged(JObj(ms), updates, render) == Ok(JObj(ns)) && !HasKey(ns, k)
    ensures Merged(JObj(ms), updates + [Member(k, v)], render) == Ok(JObj(ns + [Member(k, v)]))
  {
    assert (updates + [Member(k, v)])[..|updates|] == updates;
  }

  /** A present leaf or holder whose conversion raises TypeError or
      ValueError is left as it was. */
  lemma FailedCastKept(ms: seq<Member>, updates: seq<Member>, ns: seq<Member>, k: string, v: Json, render: Json -> string)
    requires Merged(JObj(ms), updates, render) == Ok(JObj(ns)) && HasKey(ns, k) && !v.JObj?
    requires var prior := Get(ns, k);
      var t := if IsHolder(prior) then Get(prior.members, "current") else prior;
      Cast(TypeOf(t), v, render) == Raised(TypeError) || Cast(TypeOf(t), v, render) == Raised(ValueError)
    ensures Merged(JObj(ms), updates + [Member(k, v)], render) == Ok(JObj(ns))
  {
    assert (updates + [Member(k, v)])[..|updates|] == updates;
  }

  /** A present leaf or holder whose conversion succeeds takes the
      converted value, which has the prior value's type. */
  lemma CastStored(ms: seq<Member>, updates: seq<Member>, ns: seq<Member>, k: string, v: Json, render: Json -> string)
    requires Merged(JObj(ms), updates, render) == Ok(JObj(ns)) && HasKey(ns, k) && !v.JObj?
    requires var prior := Get(ns, k);
      var t := if IsHolder(prior) then Get(prior.members, "current") else prior;
      Cast(TypeOf(t), v, render).Ok?
    ensures var prior := Get(ns, k);
      var t := if IsHolder(prior) then Get(prior.members, "current") else prior;
      var nv := Cast(TypeOf(t), v, render).value;
      var r := Merged(JObj(ms), updates + [Member(k, v)], render);
      && TypeOf(nv) == TypeOf(t)
      && r.Ok? && r.value.JObj? && HasKey(r.value.members, k)
      && (if IsHolder(prior) then IsHolder(Get(r.value.members, k)) && Get(Get(r.value.members, k).members, "current") == nv
          else Get(r.value.members, k) == nv)
  {
    assert (updates + [Member(k, v)])[..|updates|] == updates;
    var prior := Get(ns, k);
    var t := if IsHolder(prior) then Get(prior.members, "current") else prior;
    var nv := Cast(TypeOf(t), v, render).value;
    if IsHolder(prior) {
      PutGet(prior.members, "current", nv);
      PutGet(ns, k, JObj(Put(prior.members, "current", nv)));
    } else {
      PutGet(ns, k, nv);
    }
  }

  /** The two services part ways on an unknown key: FastAPI drops it,
      Flask adds it. */
  lemma UnknownKeyServicesDiffer(ms: seq<Member>, k: string, v: Json, render: Json -> string)
    requires !HasKey(ms, k)
    ensures Applied(JObj(ms), [Member(k, v)]) == Ok(JObj(ms))
    ensures Merged(JObj(ms), [Member(k, v)], render) == Ok(JObj(ms + [Member(k, v)]))
  {
    assert [Member(k, v)][..0] == [];
  }

  // -------------------------------------------------------------- endpoints

  /** The settings file: missing, not valid JSON, or a document. */
  datatype FileState = Missing | Corrupt | Holds(doc: Json)

  datatype Reply = Success(body: Json) | BadRequest | NotFound | ServerError

  /** GET /settings-flat: 404 for a missing file, 500 for a corrupt one or
      a document that is not an object. */
  function FlatReply(file: FileState): Reply
  {
    match file
    case Missing => NotFound
    case Corrupt => ServerError
    case Holds(doc) => if doc.JObj? then Success(JObj(Flatten(doc.members, ""))) else ServerError
  }

  /** POST /handle_settings of the FastAPI service. The content type is
      checked first; then the body is read, the file loaded, the updates
      applied and the file saved. Any exception gives 500 and leaves the
      file as it was. */
  function Sim800Post(file: FileState, writable: bool, contentType: string, body: Option<Json>): (FileState, Reply)
  {
    if !Contains(Lower(contentType), "application/json") then (file, BadRequest)
    else if body.None? || !file.Holds? || !body.value.JObj? then (file, ServerError)
    else
      match Applied(file.doc, body.value.members)
      case Raised(_) => (file, ServerError)
      case Ok(d) => if writable then (Holds(d), Success(d)) else (file, ServerError)
  }

  const Saved := JObj([Member("success", JBool(true))])

  /** POST /api/settings of the Flask service: load, update, save. */
  function WebPost(file: FileState, writable: bool, body: Option<Json>, render: Json -> string): (FileState, Reply)
  {
    if body.None? || !file.Holds? || !body.value.JObj? then (file, ServerError)
    else
      match Merged(file.doc, body.value.members, render)
      case Raised(_) => (file, ServerError)
      case Ok(d) => if writable then (Holds(d), Success(Saved)) else (file, ServerError)
  }

  /** The FastAPI endpoint: a wrong content type is refused before
      anything is loaded; a failure never writes; a success writes the
      applied tree, whose keys are the prior ones at every depth. */
  lemma Sim800PostOutcome(file: FileState, writable: bool, contentType: string, body: Option<Json>)
    ensures var (f, r) := Sim800Post(file, writable, contentType, body);
      && (!Contains(Lower(contentType), "application/json") ==> r == BadRequest)
      && (!r.Success? ==> f == file)
      && (r.Success? ==>
            (file.Holds? && writable && body.Some? && body.value.JObj?
             && f == Holds(r.body) && Applied(file.doc, body.value.members) == Ok(r.body)
             && Preserved(file.doc, r.body)))
  {
    if Contains(Lower(contentType), "application/json") && body.Some? && file.Holds? && body.value.JObj?
      && Applied(file.doc, body.value.members).Ok? {
      AppliedPreserves(file.doc, body.value.members);
    }
  }

  /** The Flask endpoint: a failure never writes; a success writes an
      object holding every prior top-level key in place, each with a value
      of its prior type. */
  lemma WebPostOutcome(file: FileState, writable: bool, body: Option<Json>, render: Json -> string)
    ensures var (f, r) := WebPost(file, writable, body, render);
      && (!r.Success? ==> f == file)
      && (r.Success? ==>
            (file.Holds? && writable && body.Some? && body.value.JObj? && f.Holds?
             && Merged(file.doc, body.value.members, render) == Ok(f.doc)
             && (file.doc.JObj? ==> f.doc.JObj? && Grown(file.doc.members, f.doc.members, body.value.members))))
  {
    if body.Some? && file.Holds? && body.value.JObj? && file.doc.JObj?
      && Merged(file.doc, body.value.members, render).Ok? {
      MergedGrows(file.doc.members, body.value.members, render);
    }
  }

  const QualityTen := Holds(JObj([Member("quality", JObj([Member("current", JInt(10))]))]))

  /** `{"quality": "x"}` against an int holder: the FastAPI service answers
      500 and keeps the file. */
  lemma Sim800TextForIntHolder()
    ensures Sim800Post(QualityTen, true, "application/json", Some(JObj([Member("quality", JStr("x"))])))
      == (QualityTen, ServerError)
  {
    var m := Member("quality", JStr("x"));
    QualityHolder();
    assert Coerce(JInt(10), JStr("x")) == Raised(ValueError) by {
      TextToIntRaises();
    }
    Sim800RefusesOnFailedCoerce(QualityTen, m);
  }

  /** A single update to a holder whose conversion fails makes the
      FastAPI service answer 500 and keep its file. */
  lemma Sim800RefusesOnFailedCoerce(file: FileState, m: Member)
    requires file.Holds? && file.doc.JObj? && HasKey(file.doc.members, m.key) && !m.value.JObj?
    requires IsHolder(Get(file.doc.members, m.key))
    requires Coerce(Get(Get(file.doc.members, m.key).members, "current"), m.value).Raised?
    ensures Sim800Post(file, true, "application/json", Some(JObj([m]))) == (file, ServerError)
  {
    var u := [m];
    assert u[..|u| - 1] == [] && u[|u| - 1] == m;
    assert Applied(file.doc, u[..|u| - 1]) == Ok(file.doc);
    assert Applied(file.doc, u).Raised?;
    JsonContentType();
  }

  /** The same update against the Flask service: the prior value is kept
      and the answer is a success. */
  lemma WebTextForIntHolder(render: Json -> string)
    ensures WebPost(QualityTen, true, Some(JObj([Member("quality", JStr("x"))])), render)
      == (QualityTen, Success(Saved))
  {
    var m := Member("quality", JStr("x"));
    QualityHolder();
    assert Cast(Int, JStr("x"), render) == Raised(ValueError) by {
      TextToIntRaises();
    }
    assert CastMember(QualityTen.doc, m, render) == Ok(QualityTen.doc);
    WebKeepsOnFailedCast(QualityTen, m, render);
  }

  /** A single update whose conversion fails leaves the Flask service's
      file as it was, and the answer is still a success. */
  lemma WebKeepsOnFailedCast(file: FileState, m: Member, render: Json -> string)
    requires file.Holds? && file.doc.JObj? && HasKey(file.doc.members, m.key) && !m.value.JObj?
    requires CastMember(file.doc, m, render) == Ok(file.doc)
    ensures WebPost(file, true, Some(JObj([m])), render) == (file, Success(Saved))
  {
    var u := [m];
    assert u[..|u| - 1] == [] && u[|u| - 1] == m;
    assert Merged(file.doc, u[..|u| - 1], render) == Ok(file.doc);
    assert Merged(file.doc, u, render) == CastMember(file.doc, m, render);
  }

  lemma QualityHolder()
    ensures HasKey(QualityTen.doc.members, "quality")
    ensures Get(QualityTen.doc.members, "quality") == JObj([Member("current", JInt(10))])
    ensures IsHolder(Get(QualityTen.doc.members, "quality"))
    ensures Get(Get(QualityTen.doc.members, "quality").members, "current") == JInt(10)
  {
    var ms := QualityTen.doc.members;
    assert ms[0].key == "quality";
    assert Find(ms, "quality") == 0;
    assert Find(ms[0].value.members, "current") == 0;
  }

  lemma TextToIntRaises()
    ensures ToInt(JStr("x")) == Raised(ValueError)
  {
    TextIsNotInt();
    NotIntTextRaises("x");
  }

  lemma TextIsNotInt()
    ensures PyInt("x").None?
  {
    NoFinalDigitNoInt("x");
  }

  lemma JsonContentType()
    ensures Contains(Lower("application/json"), "application/json")
  {
    assert OccursAt(Lower("application/json"), "application/json", 0);
  }

  /** Both services' settings file. */
  class CameraConfig {
    var file: FileState
    var writable: bool

    constructor (initial: FileState, canWrite: bool)
      ensures file == initial && writable == canWrite
    {
      file := initial;
      writable := canWrite;
    }

    /** GET /handle_settings. */
    method GetSettings() returns (r: Reply)
      ensures file.Holds? ==> r == Success(file.doc)
      ensures !file.Holds? ==> r == ServerError
    {
      if file.Holds? {
        r := Success(file.doc);
      } else {
        r := ServerError;
      }
    }

    /** GET /settings-flat. */
    method GetSettingsFlat() returns (r: Reply)
      ensures r == FlatReply(file)
    {
      match file {
        case Missing => r := NotFound;
        case Corrupt => r := ServerError;
        case Holds(doc) =>
          if doc.JObj? {
            var flat := FlattenSettings(doc.members, "");
            r := Success(JObj(flat));
          } else {
            r := ServerError;
          }
      }
    }

    /** POST /handle_settings. */
    method HandleSettings(contentType: string, body: Option<Json>) returns (r: Reply)
      modifies this
      ensures (file, r) == Sim800Post(old(file), old(writable), contentType, body)
      ensures writable == old(writable)
    {
      if !Contains(Lower(contentType), "application/json") {
        return BadRequest;
      }
      if body.None? || !file.Holds? || !body.value.JObj? {
        return ServerError;
      }
      var applied := ApplyUpdates(file.doc, body.value.members);
      if applied.Raised? || !writable {
        return ServerError;
      }
      file := Holds(applied.value);
      r := Success(applied.value);
    }

    /** POST /api/settings. */
    method ManageSettings(body: Option<Json>, render: Json -> string) returns (r: Reply)
      modifies this
      ensures (file, r) == WebPost(old(file), old(writable), body, render)
      ensures writable == old(writable)
    {
      if body.None? || !file.Holds? || !body.value.JObj? {
        return ServerError;
      }
      var merged := UpdateSettings(file.doc, body.value.members, render);
      if merged.Raised? || !writable {
        return ServerError;
      }
      file := Holds(merged.value);
      r := Success(Saved);
    }
  }
}
