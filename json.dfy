/** A JSON value as serde_json's `Value` and Postgres `jsonb` see it, with the
    few accessors the pipeline uses: indexing, JSON pointers, in-place key
    insertion and the `jsonb || jsonb` concatenation. */
module Json {
  import opened Wrappers
  import opened Strings

  /** Numbers are split the way serde_json stores them: integers exactly,
      everything else as a real. */
  datatype Json =
    | Null
    | Bool(b: bool)
    | Int(i: int)
    | Float(f: real)
    | Str(s: string)
    | Array(elems: seq<Json>)
    | Object(fields: map<string, Json>)

  /** `value["key"]`: a missing key, or a value that is not an object, gives
      `Null` instead of failing. */
  function Get(v: Json, key: string): (r: Json)
    ensures v.Object? && key in v.fields ==> r == v.fields[key]
    ensures !(v.Object? && key in v.fields) ==> r == Null
  {
    if v.Object? && key in v.fields then v.fields[key] else Null
  }

  /** `value[i]` on an array; `Null` when out of range or not an array. */
  function At(v: Json, i: nat): (r: Json)
    ensures v.Array? && i < |v.elems| ==> r == v.elems[i]
    ensures !(v.Array? && i < |v.elems|) ==> r == Null
  {
    if v.Array? && i < |v.elems| then v.elems[i] else Null
  }

  function AsStr(v: Json): (r: Option<string>)
    ensures r.Some? <==> v.Str?
    ensures r.Some? ==> r.value == v.s
  {
    if v.Str? then Some(v.s) else None
  }

  /** `as_f64`: any number. */
  function AsF64(v: Json): (r: Option<real>)
    ensures r.Some? <==> (v.Int? || v.Float?)
    ensures v.Int? ==> r == Some(v.i as real)
    ensures v.Float? ==> r == Some(v.f)
  {
    match v
    case Int(i) => Some(i as real)
    case Float(f) => Some(f)
    case _ => None
  }

  /** `as_u64` / deserialising an unsigned field: a non-negative integer. */
  function AsNat(v: Json): (r: Option<nat>)
    ensures r.Some? <==> (v.Int? && v.i >= 0)
    ensures r.Some? ==> r.value == v.i
  {
    if v.Int? && v.i >= 0 then Some(v.i) else None
  }

  function AsArray(v: Json): (r: Option<seq<Json>>)
    ensures r.Some? <==> v.Array?
    ensures r.Some? ==> r.value == v.elems
  {
    if v.Array? then Some(v.elems) else None
  }

  /** serde_json's array index in a JSON pointer: decimal digits, no '+', no
      leading zero unless the index is exactly "0". */
  function ParseIndex(t: string): (r: Option<nat>)
    ensures r.Some? ==> t == Decimal(r.value)
  {
    if |t| > 0 && AllDigits(t) && (t[0] != '0' || |t| == 1) then
      CanonicalDigits(t);
      Some(Value(t))
    else None
  }

  /** A digit string without a redundant leading zero is the decimal
      rendering of its own value. */
  lemma {:induction false} CanonicalDigits(t: string)
    requires |t| > 0 && AllDigits(t) && (t[0] != '0' || |t| == 1)
    ensures t == Decimal(Value(t))
    decreases |t|
  {
    var n := Value(t);
    var init := t[..|t| - 1];
    if |t| == 1 {
      assert init == [];
    } else {
      assert init[0] == t[0];
      CanonicalDigits(init);
      assert n / 10 == Value(init) && n % 10 == DigitValue(t[|t| - 1]);
    }
  }

  /** Every index is written exactly one way. */
  lemma ParseIndexOfDecimal(n: nat)
    ensures ParseIndex(Decimal(n)) == Some(n)
  {
  }

  function PointerStep(v: Json, token: string): (r: Option<Json>)
    ensures r.Some? ==> v.Object? || v.Array?
  {
    match v
    case Object(m) => if token in m then Some(m[token]) else None
    case Array(a) =>
      (match ParseIndex(token)
       case Some(i) => if i < |a| then Some(a[i]) else None
       case None => None)
    case _ => None
  }

  function PointerTokens(v: Json, tokens: seq<string>): (r: Option<Json>)
    decreases |tokens|
  {
    if tokens == [] then Some(v)
    else
      match PointerStep(v, tokens[0])
      case Some(child) => PointerTokens(child, tokens[1..])
      case None => None
  }

  /** `value.pointer(p)`: "" is the whole value, otherwise `p` must start with
      '/' and each '/'-separated token selects an object key or array index. */
  function Pointer(v: Json, p: string): (r: Option<Json>)
    ensures p == "" ==> r == Some(v)
    ensures p != "" && p[0] != '/' ==> r == None
  {
    if p == "" then Some(v)
    else if p[0] != '/' then None
    else PointerTokens(v, Split(p[1..], '/'))
  }

  /** Following a JSON pointer token by token is following the first token and
      then the rest. */
  lemma PointerConsStep(v: Json, t: string, rest: string)
    requires '/' !in t
    requires rest == "" || rest[0] == '/'
    ensures Pointer(v, "/" + t + rest) ==
      if rest == "" then PointerStep(v, t)
      else match PointerStep(v, t)
        case Some(c) => Pointer(c, rest)
        case None => None
  {
    var p := "/" + t + rest;
    assert p[1..] == t + rest;
    if rest == "" {
      SplitNoSeparator(t, '/');
      assert t + rest == t;
      assert Split(p[1..], '/') == [t];
      assert p != "" && p[0] == '/';
      assert Pointer(v, p) == PointerTokens(v, [t]);
      match PointerStep(v, t) {
        case Some(c) =>
          assert [t][1..] == [];
          assert PointerTokens(v, [t]) == PointerTokens(c, []);
        case None =>
      }
    } else {
      assert rest == [rest[0]] + rest[1..];
      assert t + rest == t + ['/'] + rest[1..];
      SplitAtFirst(t, '/', rest[1..]);
    }
  }

  /** The JSON pointer that selects `tokens` one after the other. */
  function PathOf(tokens: seq<string>): (r: string)
    ensures tokens == [] <==> r == ""
    ensures tokens != [] ==> r[0] == '/'
    decreases |tokens|
  {
    if tokens == [] then "" else "/" + tokens[0] + PathOf(tokens[1..])
  }

  /** A JSON pointer built from slash-free tokens selects those tokens. */
  lemma {:induction false} PointerOfPath(v: Json, tokens: seq<string>)
    requires forall k :: 0 <= k < |tokens| ==> '/' !in tokens[k]
    ensures Pointer(v, PathOf(tokens)) == PointerTokens(v, tokens)
    decreases |tokens|
  {
    if tokens != [] {
      var rest := PathOf(tokens[1..]);
      PointerConsStep(v, tokens[0], rest);
      match PointerStep(v, tokens[0]) {
        case Some(c) =>
          if rest != "" {
            PointerOfPath(c, tokens[1..]);
          }
        case None =>
      }
    }
  }

  /** `value["key"] = x` (serde_json `IndexMut`): a `Null` value becomes a
      one-key object, an object gets the key set, anything else panics. */
  function Insert(v: Json, key: string, x: Json): (r: Option<Json>)
    ensures r.Some? <==> (v.Null? || v.Object?)
    ensures r.Some? ==> r.value.Object? && Get(r.value, key) == x
    ensures r.Some? && v.Object? ==>
      forall k :: k in v.fields && k != key ==> k in r.value.fields && r.value.fields[k] == v.fields[k]
    ensures r.Some? ==> r.value.fields.Keys == (if v.Object? then v.fields.Keys else {}) + {key}
  {
    match v
    case Null => Some(Object(map[key := x]))
    case Object(m) => Some(Object(m[key := x]))
    case _ => None
  }

  /** The array a non-array `jsonb` operand is treated as by `||`. */
  function AsJsonbArray(v: Json): (r: seq<Json>)
    ensures v.Array? ==> r == v.elems
    ensures !v.Array? ==> r == [v]
  {
    if v.Array? then v.elems else [v]
  }

  /** Postgres `column || value` on `jsonb`. A NULL column (`None`) stays
      NULL. Two objects merge, the right-hand value winning on shared keys;
      any other pair is concatenated as arrays. */
  function Concat(col: Option<Json>, v: Json): (r: Option<Json>)
    ensures col.None? <==> r.None?
    ensures col.Some? && col.value.Object? && v.Object? ==>
      r.value.Object? && r.value.fields.Keys == col.value.fields.Keys + v.fields.Keys
    ensures col.Some? && !(col.value.Object? && v.Object?) ==>
      r.value.Array? && r.value.elems == AsJsonbArray(col.value) + AsJsonbArray(v)
  {
    match col
    case None => None
    case Some(c) =>
      if c.Object? && v.Object? then Some(Object(c.fields + v.fields))
      else Some(Array(AsJsonbArray(c) + AsJsonbArray(v)))
  }

  /** After merging an object into an object, its keys read back the merged
      values and every other key keeps its old value. */
  lemma ConcatObjectGet(c: map<string, Json>, m: map<string, Json>, key: string)
    ensures Concat(Some(Object(c)), Object(m)).Some?
    ensures Get(Concat(Some(Object(c)), Object(m)).value, key) ==
      if key in m then m[key] else Get(Object(c), key)
  {
  }

  /** Merging the same object twice is merging it once. */
  lemma ConcatObjectIdempotent(c: map<string, Json>, m: map<string, Json>)
    ensures Concat(Concat(Some(Object(c)), Object(m)), Object(m)) == Concat(Some(Object(c)), Object(m))
  {
    assert (c + m) + m == c + m;
  }

  /** Build an object from key/value pairs (later pairs win), as `json!({..})`. */
  function ObjectOf(pairs: seq<(string, Json)>): (r: Json)
    ensures r.Object?
    ensures forall p :: p in pairs ==> p.0 in r.fields
    ensures forall k :: k in r.fields ==> exists p :: p in pairs && p.0 == k
    decreases |pairs|
  {
    if pairs == [] then Object(map[])
    else
      var init := ObjectOf(pairs[..|pairs| - 1]);
      var last := pairs[|pairs| - 1];
      assert forall p :: p in pairs ==> p in pairs[..|pairs| - 1] || p == last;
      Object(init.fields[last.0 := last.1])
  }
}
