/**
 Tool-argument schemas: the check of a schema's definition, the validation of values,
 and what it means for a value to satisfy a schema.
 */
module JsonSchema {
  import opened Wrappers

  /** Integers are unbounded, as in the source.  An object lists its keys in the order
      in which they are visited. */
  datatype Json =
    | JNull | JBool(b: bool) | JInt(n: int) | JReal(r: real) | JStr(s: string)
    | JArr(items: seq<Json>) | JObj(fields: map<string, Json>, keys: seq<string>)

  const NO_FIELDS := JObj(map[], [])

  /** The order of every object in the value lists exactly its keys. */
  predicate Ordered(v: Json) {
    match v
    case JArr(items) => forall i | 0 <= i < |items| :: Ordered(items[i])
    case JObj(fields, keys) =>
      && (forall i | 0 <= i < |keys| :: keys[i] in fields)
      && (forall k | k in fields :: k in keys && Ordered(fields[k]))
    case _ => true
  }

  /** The float quotient of a `multipleOf` test may be infinite, and is then an error. */
  datatype Quotient = Whole | Broken | Infinite

  /** Regular expressions and float quotients are taken as they come. */
  datatype Oracles = Oracles(
    compiles: string -> bool, search: (string, string) -> bool, quotient: (real, real) -> Quotient)

  const DEPTH_LIMIT := 64

  const TWO_64 := 0x1_0000_0000_0000_0000
  const TWO_256 := TWO_64 * TWO_64 * TWO_64 * TWO_64
  const TWO_970 := TWO_256 * TWO_256 * TWO_256 * TWO_64 * TWO_64 * TWO_64 * 0x400

  /** The least integer, 2^1024 - 2^970, that rounds out of the range of a double. */
  const DOUBLE_LIMIT := TWO_970 * (0x40_0000_0000_0000 - 1)

  predicate InDouble(v: Json) {
    v.JInt? ==> -DOUBLE_LIMIT < v.n < DOUBLE_LIMIT
  }

  predicate Annotation(key: string) {
    key in {"$id", "$schema", "title", "description", "default", "examples", "deprecated", "readOnly", "writeOnly", "format"}
  }

  predicate Keyword(key: string) {
    key in {"type", "enum", "const", "properties", "required", "additionalProperties", "minProperties", "maxProperties",
            "items", "minItems", "maxItems", "uniqueItems", "minLength", "maxLength", "pattern", "minimum", "maximum",
            "exclusiveMinimum", "exclusiveMaximum", "multipleOf", "allOf", "anyOf", "oneOf", "not"}
  }

  predicate Supported(key: string) {
    Annotation(key) || Keyword(key) || "x-" <= key
  }

  datatype Combinator = AllOf | AnyOf | OneOf

  function Name(c: Combinator): string {
    match c
    case AllOf => "allOf"
    case AnyOf => "anyOf"
    case OneOf => "oneOf"
  }

  function Get(f: map<string, Json>, key: string, default: Json): Json {
    if key in f then f[key] else default
  }

  // ---------------------------------------------------------------- values

  predicate Numeric(v: Json) { v.JInt? || v.JReal? }

  function Number(v: Json): real
    requires Numeric(v)
  {
    if v.JInt? then v.n as real else v.r
  }

  /** Python's `==` on decoded JSON: booleans and integers count as numbers. */
  predicate LooselyEqual(a: Json, b: Json) {
    match (a, b)
    case (JArr(xs), JArr(ys)) => |xs| == |ys| && forall i | 0 <= i < |xs| :: LooselyEqual(xs[i], ys[i])
    case (JObj(f, _), JObj(g, _)) => f.Keys == g.Keys && forall k | k in f :: LooselyEqual(f[k], g[k])
    case _ =>
      if Countable(a) && Countable(b) then Count(a) == Count(b) else a == b
  }

  predicate Countable(v: Json) { v.JBool? || Numeric(v) }

  function Count(v: Json): real
    requires Countable(v)
  {
    match v
    case JBool(b) => if b then 1.0 else 0.0
    case JInt(n) => n as real
    case JReal(r) => r
  }

  predicate SameType(a: Json, b: Json) {
    match a
    case JNull => b.JNull?
    case JBool(_) => b.JBool?
    case JInt(_) => b.JInt?
    case JReal(_) => b.JReal?
    case JStr(_) => b.JStr?
    case JArr(_) => b.JArr?
    case JObj(_, _) => b.JObj?
  }

  predicate JsonEqual(a: Json, b: Json) {
    SameType(a, b) && LooselyEqual(a, b)
  }

  predicate TypeName(name: string) {
    name in {"object", "array", "string", "integer", "number", "boolean", "null"}
  }

  predicate TypeMatches(v: Json, name: string) {
    match name
    case "object" => v.JObj?
    case "array" => v.JArr?
    case "string" => v.JStr?
    case "integer" => v.JInt?
    case "number" => Numeric(v)
    case "boolean" => v.JBool?
    case "null" => v.JNull?
    case _ => false
  }

  // ---------------------------------------------------------------- accepted definitions

  function TypeList(j: Json): seq<Json> {
    match j
    case JStr(_) => [j]
    case JArr(names) => names
    case _ => []
  }

  predicate DefinesType(f: map<string, Json>) {
    var t := Get(f, "type", JNull);
    t != JNull ==> TypeList(t) != [] && forall i | 0 <= i < |TypeList(t)| :: TypeList(t)[i].JStr? && TypeName(TypeList(t)[i].s)
  }

  predicate DefinesCount(f: map<string, Json>, key: string) {
    key in f ==> f[key].JInt? && f[key].n >= 0
  }

  predicate DefinesBound(f: map<string, Json>, key: string) {
    key in f ==> Numeric(f[key]) && InDouble(f[key])
  }

  /** The keywords that hold no schemas are well formed. */
  predicate DefinesPlain(o: Oracles, f: map<string, Json>) {
    && (forall k | k in f :: Supported(k))
    && DefinesType(f)
    && ("enum" in f ==> f["enum"].JArr?)
    && (var r := Get(f, "required", JArr([])); r.JArr? && forall i | 0 <= i < |r.items| :: r.items[i].JStr?)
    && DefinesCount(f, "minProperties") && DefinesCount(f, "maxProperties")
    && DefinesCount(f, "minItems") && DefinesCount(f, "maxItems")
    && DefinesCount(f, "minLength") && DefinesCount(f, "maxLength")
    && ("uniqueItems" in f ==> f["uniqueItems"].JBool?)
    && ("pattern" in f ==> f["pattern"].JStr? && o.compiles(f["pattern"].s))
    && DefinesBound(f, "minimum") && DefinesBound(f, "maximum")
    && DefinesBound(f, "exclusiveMinimum") && DefinesBound(f, "exclusiveMaximum")
    && DefinesBound(f, "multipleOf") && ("multipleOf" in f ==> Number(f["multipleOf"]) > 0.0)
  }

  ghost predicate DefinesAlternatives(o: Oracles, f: map<string, Json>, c: Combinator, depth: nat)
    requires depth <= DEPTH_LIMIT
    decreases DEPTH_LIMIT + 1 - depth, 0
  {
    var key := Name(c);
    key in f ==> (
      && f[key].JArr? && f[key].items != []
      && forall i | 0 <= i < |f[key].items| :: Defined(o, f[key].items[i], depth + 1))
  }

  ghost predicate DefinesLogic(o: Oracles, f: map<string, Json>, depth: nat)
    requires depth <= DEPTH_LIMIT
    decreases DEPTH_LIMIT + 1 - depth, 1
  {
    && DefinesAlternatives(o, f, AllOf, depth)
    && DefinesAlternatives(o, f, AnyOf, depth)
    && DefinesAlternatives(o, f, OneOf, depth)
    && ("not" in f ==> Defined(o, f["not"], depth + 1))
  }

  ghost predicate DefinesChildren(o: Oracles, f: map<string, Json>, depth: nat)
    requires depth <= DEPTH_LIMIT
    decreases DEPTH_LIMIT + 1 - depth, 0
  {
    var p, a := Get(f, "properties", NO_FIELDS), Get(f, "additionalProperties", JBool(true));
    && p.JObj? && (forall k | k in p.fields :: Defined(o, p.fields[k], depth + 1))
    && (a.JBool? || (a.JObj? && Defined(o, a, depth + 1)))
    && Defined(o, Get(f, "items", JBool(true)), depth + 1)
  }

  /** What the definition check accepts.  An absent `items` stands for `true`, one level
      down, so an object schema never sits on the last level. */
  ghost predicate Defined(o: Oracles, s: Json, depth: nat)
    decreases if depth <= DEPTH_LIMIT then DEPTH_LIMIT + 1 - depth else 0, 2
  {
    depth <= DEPTH_LIMIT &&
    match s
    case JBool(_) => true
    case JObj(f, _) =>
      && DefinesPlain(o, f)
      && DefinesLogic(o, f, depth)
      && DefinesChildren(o, f, depth)
    case _ => false
  }

  lemma DefinedParts(o: Oracles, s: Json, depth: nat)
    requires s.JObj? && Defined(o, s, depth)
    ensures depth < DEPTH_LIMIT && DefinesPlain(o, s.fields) && DefinesChildren(o, s.fields, depth)
    ensures DefinesAlternatives(o, s.fields, AllOf, depth) && DefinesAlternatives(o, s.fields, AnyOf, depth)
    ensures DefinesAlternatives(o, s.fields, OneOf, depth)
    ensures "not" in s.fields ==> Defined(o, s.fields["not"], depth + 1)
  {
    assert Defined(o, Get(s.fields, "items", JBool(true)), depth + 1);
  }

  // ---------------------------------------------------------------- satisfaction

  function Trues(bs: seq<bool>): nat {
    if bs == [] then 0 else Trues(bs[..|bs| - 1]) + if bs[|bs| - 1] then 1 else 0
  }

  predicate OnlyAt(bs: seq<bool>, i: int) {
    0 <= i < |bs| && forall j | 0 <= j < |bs| :: bs[j] <==> j == i
  }

  ghost predicate OnlyOne(bs: seq<bool>) {
    exists i :: OnlyAt(bs, i)
  }

  lemma OnlyOneStep(bs: seq<bool>)
    requires bs != []
    ensures OnlyOne(bs) <==>
      (if bs[|bs| - 1] then forall i | 0 <= i < |bs| - 1 :: !bs[i] else OnlyOne(bs[..|bs| - 1]))
  {
    var n, front := |bs| - 1, bs[..|bs| - 1];
    if i :| OnlyAt(bs, i) {
      assert i < n ==> OnlyAt(front, i);
    }
    if i :| OnlyAt(front, i) {
      assert !bs[n] ==> OnlyAt(bs, i);
    }
    if bs[n] && forall i | 0 <= i < n :: !bs[i] {
      assert OnlyAt(bs, n);
    }
  }

  /** The counter decides all three questions: all, some, exactly one. */
  lemma {:induction false} TruesDecide(bs: seq<bool>)
    ensures Trues(bs) <= |bs|
    ensures Trues(bs) == |bs| <==> forall i | 0 <= i < |bs| :: bs[i]
    ensures Trues(bs) == 0 <==> forall i | 0 <= i < |bs| :: !bs[i]
    ensures Trues(bs) == 1 <==> OnlyOne(bs)
  {
    if bs != [] {
      var n, front := |bs| - 1, bs[..|bs| - 1];
      TruesDecide(front);
      OnlyOneStep(bs);
      assert forall i | 0 <= i < n :: front[i] == bs[i];
      assert (forall i | 0 <= i < |bs| :: bs[i]) <==> bs[n] && forall i | 0 <= i < n :: front[i];
      assert (forall i | 0 <= i < |bs| :: !bs[i]) <==> !bs[n] && forall i | 0 <= i < n :: !front[i];
    }
  }

  ghost predicate SatType(v: Json, f: map<string, Json>) {
    var t := Get(f, "type", JNull);
    t != JNull ==> exists i | 0 <= i < |TypeList(t)| :: TypeList(t)[i].JStr? && TypeMatches(v, TypeList(t)[i].s)
  }

  ghost predicate SatChoice(v: Json, f: map<string, Json>) {
    && ("enum" in f ==> f["enum"].JArr? && exists i | 0 <= i < |f["enum"].items| :: JsonEqual(v, f["enum"].items[i]))
    && ("const" in f ==> JsonEqual(v, f["const"]))
  }

  predicate WithinCounts(n: nat, f: map<string, Json>, low: string, high: string) {
    && (low in f && f[low].JInt? ==> f[low].n <= n)
    && (high in f && f[high].JInt? ==> n <= f[high].n)
  }

  predicate SatString(o: Oracles, v: Json, f: map<string, Json>) {
    v.JStr? ==>
      && WithinCounts(|v.s|, f, "minLength", "maxLength")
      && ("pattern" in f && f["pattern"].JStr? ==> o.search(f["pattern"].s, v.s))
  }

  predicate SatBounds(v: Json, f: map<string, Json>) {
    Numeric(v) ==>
      && ("minimum" in f && Numeric(f["minimum"]) ==> Number(f["minimum"]) <= Number(v))
      && ("maximum" in f && Numeric(f["maximum"]) ==> Number(v) <= Number(f["maximum"]))
      && ("exclusiveMinimum" in f && Numeric(f["exclusiveMinimum"]) ==> Number(f["exclusiveMinimum"]) < Number(v))
      && ("exclusiveMaximum" in f && Numeric(f["exclusiveMaximum"]) ==> Number(v) < Number(f["exclusiveMaximum"]))
  }

  predicate SatMultiple(o: Oracles, v: Json, f: map<string, Json>) {
    Numeric(v) && "multipleOf" in f && Numeric(f["multipleOf"]) ==>
      o.quotient(Number(v), Number(f["multipleOf"])) == Whole
  }

  function Alternatives(s: Json, c: Combinator): (r: seq<Json>)
    requires s.JObj?
    ensures forall i | 0 <= i < |r| :: r[i] < s
  {
    if Name(c) in s.fields && s.fields[Name(c)].JArr? then s.fields[Name(c)].items else []
  }

  /** Which alternatives a value satisfies. */
  ghost function Satisfied(o: Oracles, v: Json, s: Json, c: Combinator): (r: seq<bool>)
    requires s.JObj?
    decreases v, s, 0
  {
    var some := Alternatives(s, c);
    seq(|some|, i requires 0 <= i < |some| => Sat(o, v, some[i]))
  }

  ghost predicate Combines(c: Combinator, bs: seq<bool>) {
    match c
    case AllOf => forall i | 0 <= i < |bs| :: bs[i]
    case AnyOf => exists i | 0 <= i < |bs| :: bs[i]
    case OneOf => OnlyOne(bs)
  }

  ghost predicate SatAlternatives(o: Oracles, v: Json, s: Json, c: Combinator)
    requires s.JObj?
    decreases v, s, 1
  {
    Name(c) in s.fields ==> Combines(c, Satisfied(o, v, s, c))
  }

  ghost predicate SatLogic(o: Oracles, v: Json, s: Json)
    requires s.JObj?
    decreases v, s, 2
  {
    && SatAlternatives(o, v, s, AllOf) && SatAlternatives(o, v, s, AnyOf) && SatAlternatives(o, v, s, OneOf)
    && ("not" in s.fields ==> !Sat(o, v, s.fields["not"]))
  }

  ghost predicate SatMember(o: Oracles, v: Json, s: Json, k: string)
    requires s.JObj? && v.JObj? && k in v.fields
    decreases v, s, 0
  {
    var p := Get(s.fields, "properties", NO_FIELDS);
    if p.JObj? && k in p.fields then Sat(o, v.fields[k], p.fields[k])
    else Sat(o, v.fields[k], Get(s.fields, "additionalProperties", JBool(true)))
  }

  predicate HasMembers(v: Json, f: map<string, Json>)
    requires v.JObj?
  {
    && (var r := Get(f, "required", JArr([]));
        r.JArr? && forall i | 0 <= i < |r.items| :: r.items[i].JStr? && r.items[i].s in v.fields)
    && WithinCounts(|v.fields|, f, "minProperties", "maxProperties")
  }

  ghost predicate SatObject(o: Oracles, v: Json, s: Json)
    requires s.JObj?
    decreases v, s, 1
  {
    v.JObj? ==> HasMembers(v, s.fields) && forall k | k in v.fields :: SatMember(o, v, s, k)
  }

  /** The same JSON text, once keys are sorted. */
  predicate SameText(a: Json, b: Json) {
    match (a, b)
    case (JArr(xs), JArr(ys)) => |xs| == |ys| && forall i | 0 <= i < |xs| :: SameText(xs[i], ys[i])
    case (JObj(f, _), JObj(g, _)) => f.Keys == g.Keys && forall k | k in f :: SameText(f[k], g[k])
    case _ => a == b
  }

  predicate Distinct(items: seq<Json>) {
    forall i, j | 0 <= i < j < |items| :: !SameText(items[i], items[j])
  }

  ghost predicate SatItem(o: Oracles, v: Json, s: Json, i: int)
    requires s.JObj? && v.JArr? && 0 <= i < |v.items|
    decreases v, s, 0
  {
    Sat(o, v.items[i], Get(s.fields, "items", JBool(true)))
  }

  predicate HasItems(v: Json, f: map<string, Json>)
    requires v.JArr?
  {
    && WithinCounts(|v.items|, f, "minItems", "maxItems")
    && (Get(f, "uniqueItems", JBool(false)) == JBool(true) ==> Distinct(v.items))
  }

  ghost predicate SatArray(o: Oracles, v: Json, s: Json)
    requires s.JObj?
    decreases v, s, 1
  {
    v.JArr? ==> HasItems(v, s.fields) && forall i | 0 <= i < |v.items| :: SatItem(o, v, s, i)
  }

  ghost predicate SatParts(o: Oracles, v: Json, s: Json)
    requires s.JObj?
    decreases v, s, 2
  {
    && SatObject(o, v, s) && SatArray(o, v, s)
    && SatString(o, v, s.fields) && SatBounds(v, s.fields) && SatMultiple(o, v, s.fields)
  }

  /** The declarative meaning of a schema. */
  ghost predicate Sat(o: Oracles, v: Json, s: Json)
    decreases v, s, 3
  {
    match s
    case JBool(b) => b
    case JObj(f, _) =>
      SatType(v, f) && SatChoice(v, f) && SatLogic(o, v, s) && SatParts(o, v, s)
    case _ => false
  }

  // ---------------------------------------------------------------- verdicts

  /** `Mismatch` is the error a value causes; `Malformed` and `TooDeep` are a schema's own
      fault.  The source raises these three as one kind of error, and alternatives swallow
      it.  `Overflow` is raised by a number without a finite float, and passes through. */
  datatype Verdict = Pass | Mismatch | Malformed | TooDeep | Overflow

  function Answer(ok: bool): Verdict {
    if ok then Pass else Mismatch
  }

  function Result(overflows: bool, ok: bool): Verdict {
    if overflows then Overflow else Answer(ok)
  }

  /** Verdicts reached one after the other: the first that is not a pass ends the series. */
  function Series(rs: seq<Verdict>): Verdict {
    if rs == [] then Pass else if rs[0] != Pass then rs[0] else Series(rs[1..])
  }

  lemma {:induction false} SeriesPasses(rs: seq<Verdict>)
    ensures Series(rs) == Pass <==> forall i | 0 <= i < |rs| :: rs[i] == Pass
    ensures Series(rs) != Pass ==> exists i | 0 <= i < |rs| :: rs[i] == Series(rs)
  {
    if rs != [] {
      SeriesPasses(rs[1..]);
      if rs[0] == Pass && Series(rs) != Pass {
        var i :| 0 <= i < |rs| - 1 && rs[1..][i] == Series(rs[1..]);
        assert rs[i + 1] == Series(rs);
      }
      assert forall i | 1 <= i < |rs| :: rs[i] == rs[1..][i - 1];
    }
  }

  predicate PassesUpTo(rs: seq<Verdict>, i: nat) {
    i <= |rs| && forall j | 0 <= j < i :: rs[j] == Pass
  }

  lemma {:induction false} SeriesStops(rs: seq<Verdict>, i: nat)
    requires PassesUpTo(rs, i)
    ensures i < |rs| && rs[i] != Pass ==> Series(rs) == rs[i]
    ensures i == |rs| ==> Series(rs) == Pass
    decreases i
  {
    if i > 0 {
      SeriesStops(rs[1..], i - 1);
    }
  }

  // ---------------------------------------------------------------- overflow

  /** Validation of a value against a schema meets a number that has no finite float.
      Nothing swallows that error, so it ends the whole validation as soon as it is met;
      but a mismatch met earlier ends it first. */
  ghost predicate Overflows(o: Oracles, v: Json, s: Json)
    decreases v, s, 3
  {
    s.JObj? && SatType(v, s.fields) && SatChoice(v, s.fields)
    && (LogicOverflows(o, v, s) || (SatLogic(o, v, s) && PartsOverflow(o, v, s)))
  }

  /** On which alternatives validation overflows. */
  ghost function Overflown(o: Oracles, v: Json, s: Json, c: Combinator): seq<bool>
    requires s.JObj?
    decreases v, s, 0
  {
    var some := Alternatives(s, c);
    seq(|some|, i requires 0 <= i < |some| => Overflows(o, v, some[i]))
  }

  ghost predicate CombinatorOverflows(o: Oracles, v: Json, s: Json, c: Combinator)
    requires s.JObj?
    decreases v, s, 1
  {
    true in Overflown(o, v, s, c)
  }

  ghost predicate LogicOverflows(o: Oracles, v: Json, s: Json)
    requires s.JObj?
    decreases v, s, 2
  {
    || CombinatorOverflows(o, v, s, AllOf)
    || (SatAlternatives(o, v, s, AllOf) && CombinatorOverflows(o, v, s, AnyOf))
    || (SatAlternatives(o, v, s, AllOf) && SatAlternatives(o, v, s, AnyOf) && CombinatorOverflows(o, v, s, OneOf))
    || (SatAlternatives(o, v, s, AllOf) && SatAlternatives(o, v, s, AnyOf) && SatAlternatives(o, v, s, OneOf)
        && "not" in s.fields && Overflows(o, v, s.fields["not"]))
  }

  ghost predicate MemberOverflows(o: Oracles, v: Json, s: Json, k: string)
    requires s.JObj? && v.JObj? && k in v.fields
    decreases v, s, 0
  {
    var p := Get(s.fields, "properties", NO_FIELDS);
    if p.JObj? && k in p.fields then Overflows(o, v.fields[k], p.fields[k])
    else Overflows(o, v.fields[k], Get(s.fields, "additionalProperties", JBool(true)))
  }

  ghost predicate ItemOverflows(o: Oracles, v: Json, s: Json, i: int)
    requires s.JObj? && v.JArr? && 0 <= i < |v.items|
    decreases v, s, 0
  {
    Overflows(o, v.items[i], Get(s.fields, "items", JBool(true)))
  }

  ghost function MemberVerdicts(o: Oracles, v: Json, s: Json): (r: seq<Verdict>)
    requires s.JObj? && v.JObj?
    decreases v, s, 1
  {
    seq(|v.keys|, i requires 0 <= i < |v.keys| =>
      if v.keys[i] in v.fields then Result(MemberOverflows(o, v, s, v.keys[i]), SatMember(o, v, s, v.keys[i])) else Pass)
  }

  ghost function ItemVerdicts(o: Oracles, v: Json, s: Json): (r: seq<Verdict>)
    requires s.JObj? && v.JArr?
    decreases v, s, 1
  {
    seq(|v.items|, i requires 0 <= i < |v.items| => Result(ItemOverflows(o, v, s, i), SatItem(o, v, s, i)))
  }

  predicate NumberOverflows(o: Oracles, v: Json, f: map<string, Json>) {
    && Numeric(v)
    && (|| !InDouble(v)
        || (&& SatBounds(v, f) && "multipleOf" in f && Numeric(f["multipleOf"])
            && o.quotient(Number(v), Number(f["multipleOf"])) == Infinite))
  }

  ghost predicate PartsOverflow(o: Oracles, v: Json, s: Json)
    requires s.JObj?
    decreases v, s, 2
  {
    || (v.JObj? && HasMembers(v, s.fields) && Series(MemberVerdicts(o, v, s)) == Overflow)
    || (v.JArr? && HasItems(v, s.fields) && Series(ItemVerdicts(o, v, s)) == Overflow)
    || NumberOverflows(o, v, s.fields)
  }

  /** A number found somewhere in a value. */
  ghost predicate Holds(v: Json, n: Json) {
    match v
    case JArr(items) => exists i | 0 <= i < |items| :: Holds(items[i], n)
    case JObj(fields, _) => exists k | k in fields :: Holds(fields[k], n)
    case _ => v == n && Numeric(v)
  }

  /** A divisor found somewhere in a schema. */
  ghost predicate Divides(s: Json, d: real) {
    match s
    case JArr(items) => exists i | 0 <= i < |items| :: Divides(items[i], d)
    case JObj(fields, _) =>
      || ("multipleOf" in fields && Numeric(fields["multipleOf"]) && Number(fields["multipleOf"]) == d)
      || exists k | k in fields :: Divides(fields[k], d)
    case _ => false
  }

  /** Every integer of the value fits a double, and so does every quotient by a divisor of
      the schema. */
  ghost predicate Finite(o: Oracles, v: Json, s: Json) {
    && (forall n | Holds(v, n) :: InDouble(n))
    && (forall n, d | Holds(v, n) && Numeric(n) && Divides(s, d) :: o.quotient(Number(n), d) != Infinite)
  }

  ghost predicate PartOf(x: Json, y: Json) {
    match y
    case JArr(items) => exists i | 0 <= i < |items| :: items[i] == x
    case JObj(fields, _) => exists k | k in fields :: fields[k] == x
    case _ => false
  }

  lemma FinitePart(o: Oracles, v: Json, s: Json, w: Json, t: Json)
    requires Finite(o, v, s) && (w == v || PartOf(w, v)) && (t == s || PartOf(t, s) || t.JBool?)
    ensures Finite(o, w, t)
  {
    forall n | Holds(w, n) ensures Holds(v, n) {
    }
    forall d | Divides(t, d) ensures Divides(s, d) {
    }
  }

  lemma {:induction false} SeriesClean(rs: seq<Verdict>)
    requires forall i | 0 <= i < |rs| :: rs[i] != Overflow
    ensures Series(rs) != Overflow
  {
    if rs != [] {
      SeriesClean(rs[1..]);
    }
  }

  /** Finite numbers never overflow, so on an accepted definition they are validated
      exactly as the schema means. */
  lemma {:induction false} FiniteNeverOverflows(o: Oracles, v: Json, s: Json)
    requires Finite(o, v, s)
    ensures !Overflows(o, v, s) && Result(Overflows(o, v, s), Sat(o, v, s)) == Answer(Sat(o, v, s))
    decreases v, s, 1
  {
    if s.JObj? {
      FiniteAlternatives(o, v, s, AllOf);
      FiniteAlternatives(o, v, s, AnyOf);
      FiniteAlternatives(o, v, s, OneOf);
      if "not" in s.fields {
        FinitePart(o, v, s, v, s.fields["not"]);
        FiniteNeverOverflows(o, v, s.fields["not"]);
      }
      FinitePartsNeverOverflow(o, v, s);
    }
  }

  lemma {:induction false} FiniteAlternatives(o: Oracles, v: Json, s: Json, c: Combinator)
    requires Finite(o, v, s) && s.JObj?
    ensures !CombinatorOverflows(o, v, s, c)
    decreases v, s, 0
  {
    var some := Alternatives(s, c);
    forall i | 0 <= i < |some| ensures !Overflows(o, v, some[i]) {
      FinitePart(o, v, s, v, s.fields[Name(c)]);
      FinitePart(o, v, s.fields[Name(c)], v, some[i]);
      FiniteNeverOverflows(o, v, some[i]);
    }
    assert forall i | 0 <= i < |some| :: !Overflown(o, v, s, c)[i];
  }

  lemma {:induction false} FinitePartsNeverOverflow(o: Oracles, v: Json, s: Json)
    requires Finite(o, v, s) && s.JObj?
    ensures !PartsOverflow(o, v, s)
    decreases v, s, 0
  {
    match v
    case JObj(fields, keys) =>
      forall k | k in fields ensures !MemberOverflows(o, v, s, k) {
        var p := Get(s.fields, "properties", NO_FIELDS);
        if p.JObj? && k in p.fields {
          FinitePart(o, v, s, fields[k], p);
          FinitePart(o, fields[k], p, fields[k], p.fields[k]);
          FiniteNeverOverflows(o, fields[k], p.fields[k]);
        } else {
          var a := Get(s.fields, "additionalProperties", JBool(true));
          FinitePart(o, v, s, fields[k], a);
          FiniteNeverOverflows(o, fields[k], a);
        }
      }
      SeriesClean(MemberVerdicts(o, v, s));
    case JArr(items) =>
      forall i | 0 <= i < |items| ensures !ItemOverflows(o, v, s, i) {
        var t := Get(s.fields, "items", JBool(true));
        FinitePart(o, v, s, items[i], t);
        FiniteNeverOverflows(o, items[i], t);
      }
      var rs := ItemVerdicts(o, v, s);
      forall i | 0 <= i < |rs| ensures rs[i] != Overflow {
        assert !ItemOverflows(o, v, s, i);
      }
      SeriesClean(rs);
    case _ =>
      assert Numeric(v) ==> Holds(v, v);
      assert "multipleOf" in s.fields && Numeric(s.fields["multipleOf"]) ==> Divides(s, Number(s.fields["multipleOf"]));
  }

  function TypeSchema(name: string): Json {
    JObj(map["type" := JStr(name)], ["type"])
  }

  /** Every integer satisfies the schema of integers, but one without a finite float ends
      the validation with an overflow. */
  lemma IntegerOverflows(o: Oracles, n: int)
    ensures Defined(o, TypeSchema("integer"), 0) && Sat(o, JInt(n), TypeSchema("integer"))
    ensures Overflows(o, JInt(n), TypeSchema("integer")) <==> !InDouble(JInt(n))
  {
    var s := TypeSchema("integer");
    assert DefinesPlain(o, s.fields);
    assert Defined(o, JBool(true), 1);
    assert TypeMatches(JInt(n), "integer") && TypeList(s.fields["type"])[0].s == "integer";
    assert SatType(JInt(n), s.fields);
    var v := JInt(n);
    assert Overflown(o, v, s, AllOf) == Overflown(o, v, s, AnyOf) == Overflown(o, v, s, OneOf) == [];
    assert SatAlternatives(o, v, s, AllOf) && SatAlternatives(o, v, s, AnyOf) && SatAlternatives(o, v, s, OneOf);
    assert PartsOverflow(o, v, s) <==> NumberOverflows(o, v, s.fields);
    assert SatLogic(o, v, s) && !LogicOverflows(o, v, s);
  }

  const TEN_103 :=
    1_0000000000_0000000000_0000000000_0000000000_0000000000_0000000000_0000000000_0000000000_0000000000_0000000000_000

  /** 10 to the 309th is such an integer; so is the limit, and nothing below it. */
  lemma TenTo309Overflows(o: Oracles)
    ensures Overflows(o, JInt(TEN_103 * TEN_103 * TEN_103), TypeSchema("integer"))
    ensures Overflows(o, JInt(DOUBLE_LIMIT), TypeSchema("integer"))
    ensures !Overflows(o, JInt(DOUBLE_LIMIT - 1), TypeSchema("integer"))
  {
    IntegerOverflows(o, TEN_103 * TEN_103 * TEN_103);
    IntegerOverflows(o, DOUBLE_LIMIT);
    IntegerOverflows(o, DOUBLE_LIMIT - 1);
  }

  // ---------------------------------------------------------------- the definition check

  method ValidateSchemas(o: Oracles, schemas: seq<Json>, depth: nat) returns (ok: bool)
    requires depth <= DEPTH_LIMIT
    ensures ok <==> forall i | 0 <= i < |schemas| :: Defined(o, schemas[i], depth + 1)
    decreases DEPTH_LIMIT + 1 - depth, 0
  {
    for i := 0 to |schemas|
      invariant forall j | 0 <= j < i :: Defined(o, schemas[j], depth + 1)
    {
      ok := ValidateDefinition(o, schemas[i], depth + 1);
      if !ok {
        return;
      }
    }
    ok := true;
  }

  method ValidateMembers(o: Oracles, members: map<string, Json>, depth: nat) returns (ok: bool)
    requires depth <= DEPTH_LIMIT
    ensures ok <==> forall k | k in members :: Defined(o, members[k], depth + 1)
    decreases DEPTH_LIMIT + 1 - depth, 0
  {
    var rest := members.Keys;
    while rest != {}
      invariant rest <= members.Keys && forall k | k in members && k !in rest :: Defined(o, members[k], depth + 1)
      decreases |rest|
    {
      var k :| k in rest;
      rest := rest - {k};
      ok := ValidateDefinition(o, members[k], depth + 1);
      if !ok {
        return;
      }
    }
    ok := true;
  }

  method ValidateAlternatives(o: Oracles, f: map<string, Json>, c: Combinator, depth: nat) returns (ok: bool)
    requires depth <= DEPTH_LIMIT
    ensures ok <==> DefinesAlternatives(o, f, c, depth)
    decreases DEPTH_LIMIT + 1 - depth, 1
  {
    var key := Name(c);
    if key !in f {
      return true;
    }
    if !f[key].JArr? || f[key].items == [] {
      return false;
    }
    ok := ValidateSchemas(o, f[key].items, depth);
  }

  /** Accepts exactly the well-formed schemas that nest no deeper than the limit. */
  method ValidateDefinition(o: Oracles, s: Json, depth: nat) returns (ok: bool)
    ensures ok <==> Defined(o, s, depth)
    decreases if depth <= DEPTH_LIMIT then DEPTH_LIMIT + 1 - depth else 0, 3
  {
    if depth > DEPTH_LIMIT || s.JBool? || !s.JObj? {
      return depth <= DEPTH_LIMIT && s.JBool?;
    }
    var f := s.fields;
    if !DefinesPlain(o, f) {
      return false;
    }
    ok := ValidateLogic(o, f, depth);
    if ok {
      ok := ValidateChildren(o, f, depth);
    }
  }

  method ValidateLogic(o: Oracles, f: map<string, Json>, depth: nat) returns (ok: bool)
    requires depth <= DEPTH_LIMIT
    ensures ok <==> DefinesLogic(o, f, depth)
    decreases DEPTH_LIMIT + 1 - depth, 2
  {
    ok := ValidateAlternatives(o, f, AllOf, depth);
    if ok {
      ok := ValidateAlternatives(o, f, AnyOf, depth);
    }
    if ok {
      ok := ValidateAlternatives(o, f, OneOf, depth);
    }
    if ok && "not" in f {
      ok := ValidateDefinition(o, f["not"], depth + 1);
    }
  }

  /** The schemas of properties and items. */
  method ValidateChildren(o: Oracles, f: map<string, Json>, depth: nat) returns (ok: bool)
    requires depth <= DEPTH_LIMIT
    ensures ok <==> DefinesChildren(o, f, depth)
    decreases DEPTH_LIMIT + 1 - depth, 1
  {
    var p, a := Get(f, "properties", NO_FIELDS), Get(f, "additionalProperties", JBool(true));
    if !p.JObj? || !(a.JBool? || a.JObj?) {
      return false;
    }
    ok := ValidateMembers(o, p.fields, depth);
    if ok && a.JObj? {
      ok := ValidateDefinition(o, a, depth + 1);
    }
    if ok {
      ok := ValidateDefinition(o, Get(f, "items", JBool(true)), depth + 1);
    }
  }

  // ---------------------------------------------------------------- the validator

  method CheckType(o: Oracles, v: Json, f: map<string, Json>) returns (r: Verdict)
    ensures DefinesPlain(o, f) ==> r == Answer(SatType(v, f))
  {
    var t := Get(f, "type", JNull);
    if t == JNull {
      return Pass;
    }
    var names := TypeList(t);
    if !DefinesType(f) {
      return Malformed;
    }
    var any := exists i | 0 <= i < |names| :: TypeMatches(v, names[i].s);
    r := Answer(any);
  }

  method CheckChoice(o: Oracles, v: Json, f: map<string, Json>) returns (r: Verdict)
    ensures DefinesPlain(o, f) ==> r == Answer(SatChoice(v, f))
  {
    if "enum" in f {
      if !f["enum"].JArr? {
        return Mismatch;
      }
      var choices := f["enum"].items;
      var any := exists i | 0 <= i < |choices| :: JsonEqual(v, choices[i]);
      if !any {
        return Mismatch;
      }
    }
    if "const" in f && !JsonEqual(v, f["const"]) {
      return Mismatch;
    }
    r := Pass;
  }

  ghost predicate AllDefined(o: Oracles, schemas: seq<Json>, depth: nat) {
    forall i | 0 <= i < |schemas| :: Defined(o, schemas[i], depth)
  }

  function Passes(rs: seq<Verdict>): nat {
    if rs == [] then 0 else Passes(rs[..|rs| - 1]) + if rs[|rs| - 1] == Pass then 1 else 0
  }

  lemma {:induction false} PassesAreTrues(rs: seq<Verdict>, over: seq<bool>, bs: seq<bool>)
    requires |rs| == |over| == |bs| && forall i | 0 <= i < |rs| :: rs[i] == Result(over[i], bs[i]) != Overflow
    ensures Passes(rs) == Trues(bs) && true !in over
  {
    if rs != [] {
      var n := |rs| - 1;
      PassesAreTrues(rs[..n], over[..n], bs[..n]);
      assert over == over[..n] + [over[n]];
    }
  }

  /** How many alternatives accept the value.  An error an alternative raises is no match,
      unless it is an overflow, which ends the count. */
  method CountMatches(o: Oracles, v: Json, s: Json, c: Combinator, depth: nat, ghost defined: bool)
    returns (matches: nat, overflow: bool)
    requires depth <= DEPTH_LIMIT && s.JObj? && Ordered(v) && (defined ==> AllDefined(o, Alternatives(s, c), depth + 1))
    ensures matches <= |Alternatives(s, c)|
    ensures defined ==> overflow == CombinatorOverflows(o, v, s, c)
    ensures defined && !overflow ==> matches == Trues(Satisfied(o, v, s, c))
    decreases v, s, 1
  {
    matches := 0;
    ghost var rs: seq<Verdict> := [];
    for i := 0 to |Alternatives(s, c)|
      invariant |rs| == i && matches == Passes(rs) <= i
      invariant defined ==> Counted(o, v, s, c, rs)
    {
      var one := TryAlternative(o, v, s, c, i, depth, defined);
      if one == Overflow {
        if defined {
          OverflowCounts(o, v, s, c, i);
        }
        return matches, true;
      }
      assert (rs + [one])[..i] == rs;
      rs := rs + [one];
      if one == Pass {
        matches := matches + 1;
      }
    }
    if defined {
      CountDecides(o, v, s, c, rs);
    }
    overflow := false;
  }

  /** The verdicts of the alternatives tried so far, none of them an overflow. */
  ghost predicate Counted(o: Oracles, v: Json, s: Json, c: Combinator, rs: seq<Verdict>)
    requires s.JObj? && |rs| <= |Alternatives(s, c)|
  {
    forall i | 0 <= i < |rs| :: rs[i] == VerdictAt(o, v, s, c, i) != Overflow
  }

  lemma OverflowCounts(o: Oracles, v: Json, s: Json, c: Combinator, i: nat)
    requires s.JObj? && i < |Alternatives(s, c)| && VerdictAt(o, v, s, c, i) == Overflow
    ensures CombinatorOverflows(o, v, s, c)
  {
    assert Overflown(o, v, s, c)[i];
  }

  lemma CountDecides(o: Oracles, v: Json, s: Json, c: Combinator, rs: seq<Verdict>)
    requires s.JObj? && |rs| == |Alternatives(s, c)| && Counted(o, v, s, c, rs)
    ensures !CombinatorOverflows(o, v, s, c) && Passes(rs) == Trues(Satisfied(o, v, s, c))
  {
    PassesAreTrues(rs, Overflown(o, v, s, c), Satisfied(o, v, s, c));
  }

  ghost function VerdictAt(o: Oracles, v: Json, s: Json, c: Combinator, i: nat): Verdict
    requires s.JObj? && i < |Alternatives(s, c)|
  {
    Result(Overflown(o, v, s, c)[i], Satisfied(o, v, s, c)[i])
  }

  method TryAlternative(o: Oracles, v: Json, s: Json, c: Combinator, i: nat, depth: nat, ghost defined: bool) returns (r: Verdict)
    requires depth <= DEPTH_LIMIT && s.JObj? && Ordered(v) && i < |Alternatives(s, c)|
    requires defined ==> AllDefined(o, Alternatives(s, c), depth + 1)
    ensures defined ==> r == VerdictAt(o, v, s, c, i)
    decreases v, s, 0
  {
    r := ValidateArguments(o, v, Alternatives(s, c)[i], depth + 1);
  }

  method CheckAlternatives(o: Oracles, v: Json, s: Json, c: Combinator, depth: nat) returns (r: Verdict)
    requires s.JObj? && depth <= DEPTH_LIMIT && Ordered(v)
    ensures DefinesAlternatives(o, s.fields, c, depth) ==>
      r == Result(CombinatorOverflows(o, v, s, c), SatAlternatives(o, v, s, c))
    decreases v, s, 2
  {
    if Name(c) !in s.fields {
      return Pass;
    }
    if !s.fields[Name(c)].JArr? || s.fields[Name(c)].items == [] {
      return Malformed;
    }
    var alternatives := s.fields[Name(c)].items;
    var matches, overflow := CountMatches(o, v, s, c, depth, DefinesAlternatives(o, s.fields, c, depth));
    AlternativesDecide(o, v, s, c);
    if overflow {
      r := Overflow;
    } else {
      r := match c
        case AllOf => Answer(matches == |alternatives|)
        case AnyOf => Answer(matches > 0)
        case OneOf => Answer(matches == 1);
    }
  }

  /** The number of satisfied alternatives decides the combinator. */
  lemma AlternativesDecide(o: Oracles, v: Json, s: Json, c: Combinator)
    requires s.JObj? && Name(c) in s.fields
    ensures
      var bs := Satisfied(o, v, s, c);
      SatAlternatives(o, v, s, c) ==
        (match c case AllOf => Trues(bs) == |bs| case AnyOf => Trues(bs) > 0 case OneOf => Trues(bs) == 1)
  {
    TruesDecide(Satisfied(o, v, s, c));
  }

  /** A value must not match a forbidden schema.  Only because the definition was checked
      does a swallowed error mean that it does not. */
  method CheckNot(o: Oracles, v: Json, s: Json, depth: nat) returns (r: Verdict)
    requires s.JObj? && depth <= DEPTH_LIMIT && Ordered(v)
    ensures ("not" in s.fields ==> Defined(o, s.fields["not"], depth + 1)) ==>
      r == Result("not" in s.fields && Overflows(o, v, s.fields["not"]), "not" in s.fields ==> !Sat(o, v, s.fields["not"]))
    decreases v, s, 1
  {
    if "not" in s.fields {
      var forbidden := ValidateArguments(o, v, s.fields["not"], depth + 1);
      return if forbidden == Overflow then Overflow else Answer(forbidden != Pass);
    }
    r := Pass;
  }

  method CheckMember(o: Oracles, v: Json, s: Json, k: string, depth: nat) returns (r: Verdict)
    requires s.JObj? && v.JObj? && k in v.fields && depth <= DEPTH_LIMIT && Ordered(v)
    ensures Defined(o, s, depth) ==> r == Result(MemberOverflows(o, v, s, k), SatMember(o, v, s, k))
    decreases v, s, 1
  {
    if Defined(o, s, depth) {
      DefinedParts(o, s, depth);
    }
    var p, a := Get(s.fields, "properties", NO_FIELDS), Get(s.fields, "additionalProperties", JBool(true));
    if p.JObj? && k in p.fields {
      r := ValidateArguments(o, v.fields[k], p.fields[k], depth + 1);
    } else if a == JBool(false) {
      r := Mismatch;
    } else if a.JObj? {
      r := ValidateArguments(o, v.fields[k], a, depth + 1);
    } else {
      r := Pass;
    }
  }

  method CheckObject(o: Oracles, v: Json, s: Json, depth: nat) returns (r: Verdict)
    requires s.JObj? && depth <= DEPTH_LIMIT && v.JObj? && Ordered(v)
    ensures Defined(o, s, depth) ==> r == Result(PartsOverflow(o, v, s), SatObject(o, v, s))
    decreases v, s, 3
  {
    if Defined(o, s, depth) {
      DefinedParts(o, s, depth);
    }
    var required, a := Get(s.fields, "required", JArr([])), Get(s.fields, "additionalProperties", JBool(true));
    if !Get(s.fields, "properties", NO_FIELDS).JObj? || !required.JArr? || !(a.JBool? || a.JObj?)
      || exists i | 0 <= i < |required.items| :: !required.items[i].JStr? {
      return Malformed;
    }
    var missing := exists i | 0 <= i < |required.items| :: required.items[i].JStr? && required.items[i].s !in v.fields;
    if missing || !WithinCounts(|v.fields|, s.fields, "minProperties", "maxProperties") {
      return Mismatch;
    }
    r := CheckMembers(o, v, s, depth, Defined(o, s, depth));
    MembersDecide(o, v, s);
  }

  /** The members in turn, up to the first that does not pass. */
  method CheckMembers(o: Oracles, v: Json, s: Json, depth: nat, ghost defined: bool) returns (r: Verdict)
    requires s.JObj? && depth <= DEPTH_LIMIT && v.JObj? && Ordered(v) && (defined ==> Defined(o, s, depth))
    ensures defined ==> r == Series(MemberVerdicts(o, v, s))
    decreases v, s, 2
  {
    ghost var rs := MemberVerdicts(o, v, s);
    for i := 0 to |v.keys|
      invariant defined ==> PassesUpTo(rs, i)
    {
      r := CheckMember(o, v, s, v.keys[i], depth);
      assert defined ==> r == rs[i];
      if r != Pass {
        if defined {
          SeriesStops(rs, i);
        }
        return;
      }
    }
    if defined {
      SeriesStops(rs, |v.keys|);
    }
    r := Pass;
  }

  /** The members decide about an object that has what is required. */
  lemma MembersDecide(o: Oracles, v: Json, s: Json)
    requires s.JObj? && v.JObj? && Ordered(v) && HasMembers(v, s.fields)
    ensures Series(MemberVerdicts(o, v, s)) == Result(PartsOverflow(o, v, s), SatObject(o, v, s))
  {
    var rs := MemberVerdicts(o, v, s);
    SeriesPasses(rs);
    if Series(rs) == Pass {
      forall k | k in v.fields ensures SatMember(o, v, s, k) {
        var i :| 0 <= i < |v.keys| && v.keys[i] == k;
        assert rs[i] == Pass;
      }
    } else {
      var i :| 0 <= i < |rs| && rs[i] == Series(rs);
      assert rs[i] == Result(MemberOverflows(o, v, s, v.keys[i]), SatMember(o, v, s, v.keys[i]));
    }
  }

  method CheckItem(o: Oracles, v: Json, s: Json, i: nat, depth: nat) returns (r: Verdict)
    requires s.JObj? && v.JArr? && i < |v.items| && depth <= DEPTH_LIMIT && Ordered(v)
    ensures Defined(o, s, depth) ==> r == Result(ItemOverflows(o, v, s, i), SatItem(o, v, s, i))
    decreases v, s, 1
  {
    if Defined(o, s, depth) {
      DefinedParts(o, s, depth);
    }
    r := ValidateArguments(o, v.items[i], Get(s.fields, "items", JBool(true)), depth + 1);
  }

  method CheckArray(o: Oracles, v: Json, s: Json, depth: nat) returns (r: Verdict)
    requires s.JObj? && depth <= DEPTH_LIMIT && v.JArr? && Ordered(v)
    ensures Defined(o, s, depth) ==> r == Result(PartsOverflow(o, v, s), SatArray(o, v, s))
    decreases v, s, 3
  {
    if !WithinCounts(|v.items|, s.fields, "minItems", "maxItems") {
      return Mismatch;
    }
    if Get(s.fields, "uniqueItems", JBool(false)) == JBool(true) {
      if !Distinct(v.items) {
        return Mismatch;
      }
    }
    r := CheckItems(o, v, s, depth, Defined(o, s, depth));
    ItemsDecide(o, v, s);
  }

  /** The items in turn, up to the first that does not pass. */
  method CheckItems(o: Oracles, v: Json, s: Json, depth: nat, ghost defined: bool) returns (r: Verdict)
    requires s.JObj? && depth <= DEPTH_LIMIT && v.JArr? && Ordered(v) && (defined ==> Defined(o, s, depth))
    ensures defined ==> r == Series(ItemVerdicts(o, v, s))
    decreases v, s, 2
  {
    ghost var rs := ItemVerdicts(o, v, s);
    for i := 0 to |v.items|
      invariant defined ==> PassesUpTo(rs, i)
    {
      r := CheckItem(o, v, s, i, depth);
      assert defined ==> r == rs[i];
      if r != Pass {
        if defined {
          SeriesStops(rs, i);
        }
        return;
      }
    }
    if defined {
      SeriesStops(rs, |v.items|);
    }
    r := Pass;
  }

  lemma ItemsDecide(o: Oracles, v: Json, s: Json)
    requires s.JObj? && v.JArr? && HasItems(v, s.fields)
    ensures Series(ItemVerdicts(o, v, s)) == Result(PartsOverflow(o, v, s), SatArray(o, v, s))
  {
    var rs := ItemVerdicts(o, v, s);
    SeriesPasses(rs);
    if Series(rs) == Pass {
      forall i | 0 <= i < |v.items| ensures SatItem(o, v, s, i) {
        assert rs[i] == Pass;
      }
    } else {
      var i :| 0 <= i < |rs| && rs[i] == Series(rs);
      assert rs[i] == Result(ItemOverflows(o, v, s, i), SatItem(o, v, s, i));
    }
  }

  method CheckLogic(o: Oracles, v: Json, s: Json, depth: nat) returns (r: Verdict)
    requires s.JObj? && depth <= DEPTH_LIMIT && Ordered(v)
    ensures Defined(o, s, depth) ==> r == Result(LogicOverflows(o, v, s), SatLogic(o, v, s))
    decreases v, s, 3
  {
    if Defined(o, s, depth) {
      DefinedParts(o, s, depth);
    }
    r := CheckAlternatives(o, v, s, AllOf, depth);
    if r == Pass {
      r := CheckAlternatives(o, v, s, AnyOf, depth);
    }
    if r == Pass {
      r := CheckAlternatives(o, v, s, OneOf, depth);
    }
    if r == Pass {
      r := CheckNot(o, v, s, depth);
    }
  }

  method CheckString(o: Oracles, v: Json, f: map<string, Json>) returns (r: Verdict)
    requires v.JStr?
    ensures DefinesPlain(o, f) ==> r == Answer(SatString(o, v, f))
  {
    if "minLength" in f && f["minLength"].JInt? && |v.s| < f["minLength"].n {
      return Mismatch;
    }
    if "maxLength" in f && f["maxLength"].JInt? && |v.s| > f["maxLength"].n {
      return Mismatch;
    }
    if "pattern" in f {
      if !f["pattern"].JStr? || !o.compiles(f["pattern"].s) {
        return Malformed;
      }
      if !o.search(f["pattern"].s, v.s) {
        return Mismatch;
      }
    }
    r := Pass;
  }

  /** The four bounds in turn, then the quotient. */
  method CheckNumber(o: Oracles, v: Json, f: map<string, Json>) returns (r: Verdict)
    requires Numeric(v)
    ensures DefinesPlain(o, f) ==> r == Result(NumberOverflows(o, v, f), SatBounds(v, f) && SatMultiple(o, v, f))
  {
    if !InDouble(v) {
      return Overflow;
    }
    if "minimum" in f && Numeric(f["minimum"]) && !(Number(v) >= Number(f["minimum"])) {
      return Mismatch;
    }
    if "maximum" in f && Numeric(f["maximum"]) && !(Number(v) <= Number(f["maximum"])) {
      return Mismatch;
    }
    if "exclusiveMinimum" in f && Numeric(f["exclusiveMinimum"]) && !(Number(v) > Number(f["exclusiveMinimum"])) {
      return Mismatch;
    }
    if "exclusiveMaximum" in f && Numeric(f["exclusiveMaximum"]) && !(Number(v) < Number(f["exclusiveMaximum"])) {
      return Mismatch;
    }
    if "multipleOf" in f {
      if !Numeric(f["multipleOf"]) || Number(f["multipleOf"]) <= 0.0 {
        return Malformed;
      }
      return match o.quotient(Number(v), Number(f["multipleOf"]))
        case Whole => Pass
        case Broken => Mismatch
        case Infinite => Overflow;
    }
    r := Pass;
  }

  /** What remains once type, choices and combinators are satisfied. */
  method CheckParts(o: Oracles, v: Json, s: Json, depth: nat) returns (r: Verdict)
    requires s.JObj? && depth <= DEPTH_LIMIT && Ordered(v)
    ensures Defined(o, s, depth) ==> r == Result(PartsOverflow(o, v, s), SatParts(o, v, s))
    decreases v, s, 4
  {
    if Defined(o, s, depth) {
      DefinedParts(o, s, depth);
    }
    if v.JObj? {
      r := CheckObject(o, v, s, depth);
    } else if v.JArr? {
      r := CheckArray(o, v, s, depth);
    } else if v.JStr? {
      r := CheckString(o, v, s.fields);
    } else if Numeric(v) {
      r := CheckNumber(o, v, s.fields);
    } else {
      r := Pass;
    }
  }

  /** On an accepted definition the validator passes exactly the values that satisfy the
      schema, unless it meets a number without a finite float first, and no error is ever
      the schema's fault: not malformed, not too deep. */
  method ValidateArguments(o: Oracles, v: Json, s: Json, depth: nat) returns (r: Verdict)
    requires Ordered(v)
    ensures Defined(o, s, depth) ==> r == Result(Overflows(o, v, s), Sat(o, v, s))
    ensures depth > DEPTH_LIMIT ==> r == TooDeep
    decreases v, s, 5
  {
    if depth > DEPTH_LIMIT {
      return TooDeep;
    }
    if s.JBool? {
      return Answer(s.b);
    }
    if !s.JObj? || exists k | k in s.fields :: !Supported(k) {
      return Malformed;
    }
    if Defined(o, s, depth) {
      DefinedParts(o, s, depth);
    }
    r := CheckType(o, v, s.fields);
    if r == Pass {
      r := CheckChoice(o, v, s.fields);
    }
    if r == Pass {
      r := CheckLogic(o, v, s, depth);
    }
    if r == Pass {
      r := CheckParts(o, v, s, depth);
    }
  }
}
