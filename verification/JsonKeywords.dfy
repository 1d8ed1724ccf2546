/**
 What each keyword of a schema means on its own: which definitions of it are accepted, and
 which values it lets through.
 */
module JsonKeywords {
  import opened Wrappers
  import opened JsonSchema

  /** The schema of one keyword. */
  function One(key: string, x: Json): Json {
    JObj(map[key := x], [key])
  }

  // ---------------------------------------------------------------- equality

  /** Scalars are equal if they are the same value; a number is no boolean, and an integer
      no real. */
  lemma ScalarsEqual(a: Json, b: Json)
    requires !a.JArr? && !a.JObj?
    ensures JsonEqual(a, b) <==> a == b
    ensures JsonEqual(b, a) <==> a == b
  {
  }

  /** Containers are equal if they have the same shape and their parts are loosely equal; in
      which order keys are listed does not matter. */
  lemma PartsEqual(a: Json, b: Json)
    ensures a.JArr? ==> (JsonEqual(a, b) <==> (
      && b.JArr? && |a.items| == |b.items|
      && forall i | 0 <= i < |a.items| :: LooselyEqual(a.items[i], b.items[i])))
    ensures a.JObj? ==> (JsonEqual(a, b) <==> (
      && b.JObj? && a.fields.Keys == b.fields.Keys
      && forall k | k in a.fields :: LooselyEqual(a.fields[k], b.fields[k])))
  {
  }

  /** Inside a container a boolean counts as the number 0 or 1, and an integer as a real. */
  lemma LooseScalars(a: Json, b: Json)
    requires !a.JArr? && !a.JObj?
    ensures LooselyEqual(a, b) <==>
      match (a, b)
      case (JBool(x), JInt(n)) => n == if x then 1 else 0
      case (JBool(x), JReal(r)) => r == if x then 1.0 else 0.0
      case (JInt(n), JBool(x)) => n == if x then 1 else 0
      case (JReal(r), JBool(x)) => r == if x then 1.0 else 0.0
      case (JInt(n), JReal(r)) => n as real == r
      case (JReal(r), JInt(n)) => n as real == r
      case _ => a == b
  {
  }

  lemma {:induction false} LooseReflexive(a: Json)
    ensures LooselyEqual(a, a)
  {
    match a
    case JArr(items) =>
      forall i | 0 <= i < |items| ensures LooselyEqual(items[i], items[i]) {
        LooseReflexive(items[i]);
      }
    case JObj(fields, _) =>
      forall k | k in fields ensures LooselyEqual(fields[k], fields[k]) {
        LooseReflexive(fields[k]);
      }
    case _ =>
  }

  lemma {:induction false} LooseSymmetric(a: Json, b: Json)
    requires LooselyEqual(a, b)
    ensures LooselyEqual(b, a)
  {
    match a
    case JArr(items) =>
      forall i | 0 <= i < |items| ensures LooselyEqual(b.items[i], items[i]) {
        LooseSymmetric(items[i], b.items[i]);
      }
    case JObj(fields, _) =>
      forall k | k in fields ensures LooselyEqual(b.fields[k], fields[k]) {
        LooseSymmetric(fields[k], b.fields[k]);
      }
    case _ =>
  }

  lemma {:induction false} LooseTransitive(a: Json, b: Json, c: Json)
    requires LooselyEqual(a, b) && LooselyEqual(b, c)
    ensures LooselyEqual(a, c)
  {
    match a
    case JArr(items) =>
      forall i | 0 <= i < |items| ensures LooselyEqual(items[i], c.items[i]) {
        LooseTransitive(items[i], b.items[i], c.items[i]);
      }
    case JObj(fields, _) =>
      forall k | k in fields ensures LooselyEqual(fields[k], c.fields[k]) {
        LooseTransitive(fields[k], b.fields[k], c.fields[k]);
      }
    case _ =>
  }

  /** The equality of `enum` and `const` is an equivalence. */
  lemma EqualityIsEquivalence(a: Json, b: Json, c: Json)
    ensures JsonEqual(a, a)
    ensures JsonEqual(a, b) ==> JsonEqual(b, a)
    ensures JsonEqual(a, b) && JsonEqual(b, c) ==> JsonEqual(a, c)
  {
    LooseReflexive(a);
    if JsonEqual(a, b) {
      LooseSymmetric(a, b);
      if JsonEqual(b, c) {
        LooseTransitive(a, b, c);
      }
    }
  }

  /** The equality of `uniqueItems` never takes a number for a boolean, at any depth. */
  lemma TextParts(a: Json, b: Json)
    ensures !a.JArr? && !a.JObj? ==> (SameText(a, b) <==> a == b)
    ensures a.JArr? ==> (SameText(a, b) <==> (
      && b.JArr? && |a.items| == |b.items|
      && forall i | 0 <= i < |a.items| :: SameText(a.items[i], b.items[i])))
    ensures a.JObj? ==> (SameText(a, b) <==> (
      && b.JObj? && a.fields.Keys == b.fields.Keys
      && forall k | k in a.fields :: SameText(a.fields[k], b.fields[k])))
  {
  }

  // ---------------------------------------------------------------- keywords on values

  /** Without combinators a schema is satisfied by type, choice and parts. */
  lemma OneMeans(o: Oracles, v: Json, key: string, x: Json)
    requires key !in {"allOf", "anyOf", "oneOf", "not"}
    ensures
      var s := One(key, x);
      Sat(o, v, s) <==> SatType(v, s.fields) && SatChoice(v, s.fields) && SatParts(o, v, s)
  {
    var s := One(key, x);
    assert SatAlternatives(o, v, s, AllOf) && SatAlternatives(o, v, s, AnyOf) && SatAlternatives(o, v, s, OneOf);
    assert SatLogic(o, v, s);
  }

  /** With no word about members or items, nothing is asked of them. */
  lemma PartsFree(o: Oracles, v: Json, key: string, x: Json)
    requires key !in {"properties", "additionalProperties", "required", "minProperties", "maxProperties",
                      "items", "minItems", "maxItems", "uniqueItems"}
    ensures SatObject(o, v, One(key, x)) && SatArray(o, v, One(key, x))
  {
    var s := One(key, x);
    if v.JObj? {
      forall k | k in v.fields ensures SatMember(o, v, s, k) {
        assert Sat(o, v.fields[k], JBool(true));
      }
    }
    if v.JArr? {
      forall i | 0 <= i < |v.items| ensures SatItem(o, v, s, i) {
        assert Sat(o, v.items[i], JBool(true));
      }
    }
  }

  lemma ChoiceFree(v: Json, key: string, x: Json)
    requires key !in {"type", "enum", "const"}
    ensures SatType(v, One(key, x).fields) && SatChoice(v, One(key, x).fields)
  {
  }

  lemma ScalarsFree(o: Oracles, v: Json, key: string, x: Json)
    requires key !in {"minLength", "maxLength", "pattern", "minimum", "maximum", "exclusiveMinimum", "exclusiveMaximum", "multipleOf"}
    ensures SatString(o, v, One(key, x).fields) && SatBounds(v, One(key, x).fields) && SatMultiple(o, v, One(key, x).fields)
  {
  }

  /** A keyword about members or items is a matter of objects and arrays alone. */
  lemma ContainersMean(o: Oracles, v: Json, key: string, x: Json)
    requires key in {"properties", "additionalProperties", "required", "minProperties", "maxProperties",
                     "items", "minItems", "maxItems", "uniqueItems"}
    ensures Sat(o, v, One(key, x)) <==> SatObject(o, v, One(key, x)) && SatArray(o, v, One(key, x))
  {
    OneMeans(o, v, key, x);
    ChoiceFree(v, key, x);
    ScalarsFree(o, v, key, x);
  }

  /** No value has two types, but for an integer, which is a number as well. */
  lemma TypeNames(v: Json, name: string)
    requires TypeName(name)
    ensures TypeMatches(v, name) <==>
      match v
      case JNull => name == "null"
      case JBool(_) => name == "boolean"
      case JInt(_) => name == "integer" || name == "number"
      case JReal(_) => name == "number"
      case JStr(_) => name == "string"
      case JArr(_) => name == "array"
      case JObj(_, _) => name == "object"
  {
  }

  lemma TypeMeans(o: Oracles, v: Json, name: string)
    ensures Sat(o, v, One("type", JStr(name))) <==> TypeMatches(v, name)
  {
    OneMeans(o, v, "type", JStr(name));
    PartsFree(o, v, "type", JStr(name));
    assert SatType(v, One("type", JStr(name)).fields) <==> TypeMatches(v, name) by {
      assert TypeList(JStr(name))[0] == JStr(name);
    }
  }

  /** Any one of several types will do. */
  lemma TypesMean(o: Oracles, v: Json, names: seq<string>)
    requires names != []
    ensures
      var list := JArr(seq(|names|, i requires 0 <= i < |names| => JStr(names[i])));
      Sat(o, v, One("type", list)) <==> exists i | 0 <= i < |names| :: TypeMatches(v, names[i])
  {
    var list := JArr(seq(|names|, i requires 0 <= i < |names| => JStr(names[i])));
    OneMeans(o, v, "type", list);
    PartsFree(o, v, "type", list);
    if i :| 0 <= i < |names| && TypeMatches(v, names[i]) {
      assert TypeList(list)[i] == JStr(names[i]);
    }
  }

  lemma ConstMeans(o: Oracles, v: Json, x: Json)
    ensures Sat(o, v, One("const", x)) <==> JsonEqual(v, x)
    ensures !x.JArr? && !x.JObj? ==> (Sat(o, v, One("const", x)) <==> v == x)
  {
    OneMeans(o, v, "const", x);
    PartsFree(o, v, "const", x);
    if !x.JArr? && !x.JObj? {
      ScalarsEqual(x, v);
    }
  }

  lemma EnumMeans(o: Oracles, v: Json, choices: seq<Json>)
    ensures Sat(o, v, One("enum", JArr(choices))) <==> exists i | 0 <= i < |choices| :: JsonEqual(v, choices[i])
    ensures !v.JArr? && !v.JObj? ==> (Sat(o, v, One("enum", JArr(choices))) <==> v in choices)
  {
    OneMeans(o, v, "enum", JArr(choices));
    PartsFree(o, v, "enum", JArr(choices));
    if !v.JArr? && !v.JObj? {
      forall i | 0 <= i < |choices| ensures JsonEqual(v, choices[i]) <==> v == choices[i] {
        ScalarsEqual(v, choices[i]);
      }
    }
  }

  lemma BoundMeans(o: Oracles, v: Json, key: string, x: Json)
    requires key in {"minimum", "maximum", "exclusiveMinimum", "exclusiveMaximum"}
    ensures Sat(o, v, One(key, x)) <==> SatBounds(v, One(key, x).fields)
  {
    OneMeans(o, v, key, x);
    ChoiceFree(v, key, x);
    PartsFree(o, v, key, x);
  }

  lemma LowerMeans(o: Oracles, v: Json, x: Json)
    requires Numeric(x)
    ensures Sat(o, v, One("minimum", x)) <==> (Numeric(v) ==> Number(v) >= Number(x))
    ensures Sat(o, v, One("exclusiveMinimum", x)) <==> (Numeric(v) ==> Number(v) > Number(x))
  {
    BoundMeans(o, v, "minimum", x);
    BoundMeans(o, v, "exclusiveMinimum", x);
  }

  lemma UpperMeans(o: Oracles, v: Json, x: Json)
    requires Numeric(x)
    ensures Sat(o, v, One("maximum", x)) <==> (Numeric(v) ==> Number(v) <= Number(x))
    ensures Sat(o, v, One("exclusiveMaximum", x)) <==> (Numeric(v) ==> Number(v) < Number(x))
  {
    BoundMeans(o, v, "maximum", x);
    BoundMeans(o, v, "exclusiveMaximum", x);
  }

  lemma MultipleMeans(o: Oracles, v: Json, x: Json)
    requires Numeric(x)
    ensures Sat(o, v, One("multipleOf", x)) <==> (Numeric(v) ==> o.quotient(Number(v), Number(x)) == Whole)
  {
    OneMeans(o, v, "multipleOf", x);
    PartsFree(o, v, "multipleOf", x);
  }

  lemma MinLengthMeans(o: Oracles, v: Json, n: int)
    ensures Sat(o, v, One("minLength", JInt(n))) <==> (v.JStr? ==> n <= |v.s|)
  {
    OneMeans(o, v, "minLength", JInt(n));
    PartsFree(o, v, "minLength", JInt(n));
  }

  lemma MaxLengthMeans(o: Oracles, v: Json, n: int)
    ensures Sat(o, v, One("maxLength", JInt(n))) <==> (v.JStr? ==> |v.s| <= n)
  {
    OneMeans(o, v, "maxLength", JInt(n));
    PartsFree(o, v, "maxLength", JInt(n));
  }

  lemma PatternMeans(o: Oracles, v: Json, pattern: string)
    ensures Sat(o, v, One("pattern", JStr(pattern))) <==> (v.JStr? ==> o.search(pattern, v.s))
  {
    OneMeans(o, v, "pattern", JStr(pattern));
    PartsFree(o, v, "pattern", JStr(pattern));
  }

  /** Nothing is asked of the members one by one. */
  lemma MembersFree(o: Oracles, v: Json, key: string, x: Json)
    requires key !in {"properties", "additionalProperties"}
    ensures SatObject(o, v, One(key, x)) <==> (v.JObj? ==> HasMembers(v, One(key, x).fields))
  {
    var s := One(key, x);
    if v.JObj? {
      forall k | k in v.fields ensures SatMember(o, v, s, k) {
        assert Sat(o, v.fields[k], JBool(true));
      }
    }
  }

  lemma ItemsFree(o: Oracles, v: Json, key: string, x: Json)
    requires key != "items"
    ensures SatArray(o, v, One(key, x)) <==> (v.JArr? ==> HasItems(v, One(key, x).fields))
  {
    var s := One(key, x);
    if v.JArr? {
      forall i | 0 <= i < |v.items| ensures SatItem(o, v, s, i) {
        assert Sat(o, v.items[i], JBool(true));
      }
    }
  }

  lemma CountMeans(o: Oracles, v: Json, key: string, x: Json)
    requires key in {"minProperties", "maxProperties", "minItems", "maxItems", "uniqueItems", "required"}
    ensures Sat(o, v, One(key, x)) <==>
      (v.JObj? ==> HasMembers(v, One(key, x).fields)) && (v.JArr? ==> HasItems(v, One(key, x).fields))
  {
    ContainersMean(o, v, key, x);
    MembersFree(o, v, key, x);
    ItemsFree(o, v, key, x);
  }

  lemma MemberCountsMean(o: Oracles, v: Json, n: int)
    ensures Sat(o, v, One("minProperties", JInt(n))) <==> (v.JObj? ==> n <= |v.fields|)
    ensures Sat(o, v, One("maxProperties", JInt(n))) <==> (v.JObj? ==> |v.fields| <= n)
  {
    CountMeans(o, v, "minProperties", JInt(n));
    CountMeans(o, v, "maxProperties", JInt(n));
  }

  lemma ItemCountsMean(o: Oracles, v: Json, n: int)
    ensures Sat(o, v, One("minItems", JInt(n))) <==> (v.JArr? ==> n <= |v.items|)
    ensures Sat(o, v, One("maxItems", JInt(n))) <==> (v.JArr? ==> |v.items| <= n)
  {
    CountMeans(o, v, "minItems", JInt(n));
    CountMeans(o, v, "maxItems", JInt(n));
  }

  /** Exactly the listed members must be there. */
  lemma RequiredMeans(o: Oracles, v: Json, names: seq<string>)
    ensures
      var list := JArr(seq(|names|, i requires 0 <= i < |names| => JStr(names[i])));
      Sat(o, v, One("required", list)) <==> (v.JObj? ==> forall i | 0 <= i < |names| :: names[i] in v.fields)
  {
    var list := JArr(seq(|names|, i requires 0 <= i < |names| => JStr(names[i])));
    CountMeans(o, v, "required", list);
    if v.JObj? && HasMembers(v, One("required", list).fields) {
      forall i | 0 <= i < |names| ensures names[i] in v.fields {
        assert list.items[i] == JStr(names[i]);
      }
    }
  }

  lemma UniqueMeans(o: Oracles, v: Json, wanted: bool)
    ensures Sat(o, v, One("uniqueItems", JBool(wanted))) <==>
      (v.JArr? && wanted ==> forall i, j | 0 <= i < j < |v.items| :: !SameText(v.items[i], v.items[j]))
  {
    CountMeans(o, v, "uniqueItems", JBool(wanted));
  }

  lemma ItemAt(o: Oracles, v: Json, x: Json, i: int)
    requires v.JArr? && 0 <= i < |v.items|
    ensures SatItem(o, v, One("items", x), i) <==> Sat(o, v.items[i], x)
  {
  }

  lemma ItemsOnly(o: Oracles, v: Json, x: Json)
    ensures SatArray(o, v, One("items", x)) <==> (v.JArr? ==> forall i | 0 <= i < |v.items| :: Sat(o, v.items[i], x))
  {
    var s := One("items", x);
    if v.JArr? {
      assert HasItems(v, s.fields);
      forall i | 0 <= i < |v.items| ensures SatItem(o, v, s, i) <==> Sat(o, v.items[i], x) {
        ItemAt(o, v, x, i);
      }
    }
  }

  lemma ItemsMean(o: Oracles, v: Json, x: Json)
    ensures Sat(o, v, One("items", x)) <==> (v.JArr? ==> forall i | 0 <= i < |v.items| :: Sat(o, v.items[i], x))
  {
    ContainersMean(o, v, "items", x);
    MembersFree(o, v, "items", x);
    ItemsOnly(o, v, x);
  }

  lemma PropertyAt(o: Oracles, v: Json, p: map<string, Json>, keys: seq<string>, k: string)
    requires v.JObj? && k in v.fields
    ensures SatMember(o, v, One("properties", JObj(p, keys)), k) <==> (k in p ==> Sat(o, v.fields[k], p[k]))
  {
  }

  /** Properties constrain the members they name; other members are free. */
  lemma PropertiesMean(o: Oracles, v: Json, p: map<string, Json>, keys: seq<string>)
    ensures Sat(o, v, One("properties", JObj(p, keys))) <==>
      (v.JObj? ==> forall k | k in v.fields && k in p :: Sat(o, v.fields[k], p[k]))
  {
    var s := One("properties", JObj(p, keys));
    ContainersMean(o, v, "properties", JObj(p, keys));
    ItemsFree(o, v, "properties", JObj(p, keys));
    if v.JObj? {
      forall k | k in v.fields ensures SatMember(o, v, s, k) <==> (k in p ==> Sat(o, v.fields[k], p[k])) {
        PropertyAt(o, v, p, keys, k);
      }
    }
  }

  lemma AdditionalMeans(o: Oracles, v: Json, x: Json)
    ensures Sat(o, v, One("additionalProperties", x)) <==> (v.JObj? ==> forall k | k in v.fields :: Sat(o, v.fields[k], x))
  {
    var s := One("additionalProperties", x);
    ContainersMean(o, v, "additionalProperties", x);
    ItemsFree(o, v, "additionalProperties", x);
    if v.JObj? {
      forall k | k in v.fields ensures SatMember(o, v, s, k) <==> Sat(o, v.fields[k], x) {
      }
    }
  }

  /** Additional properties constrain just the members that are not named. */
  lemma ClosedMeans(o: Oracles, v: Json, p: map<string, Json>, x: Json, keys: seq<string>)
    ensures
      var s := JObj(map["properties" := JObj(p, []), "additionalProperties" := x], keys);
      SatObject(o, v, s) <==>
        (v.JObj? ==> forall k | k in v.fields :: if k in p then Sat(o, v.fields[k], p[k]) else Sat(o, v.fields[k], x))
  {
    var s := JObj(map["properties" := JObj(p, []), "additionalProperties" := x], keys);
    if v.JObj? {
      forall k | k in v.fields
        ensures SatMember(o, v, s, k) <==> if k in p then Sat(o, v.fields[k], p[k]) else Sat(o, v.fields[k], x)
      {
      }
    }
  }

  // ---------------------------------------------------------------- combinators

  /** Outside the combinators nothing is asked. */
  lemma LogicAlone(o: Oracles, v: Json, key: string, x: Json)
    requires key in {"allOf", "anyOf", "oneOf", "not"}
    ensures Sat(o, v, One(key, x)) <==> SatLogic(o, v, One(key, x))
  {
    ChoiceFree(v, key, x);
    ScalarsFree(o, v, key, x);
    PartsFree(o, v, key, x);
    assert SatParts(o, v, One(key, x));
  }

  lemma CombinatorsMean(o: Oracles, v: Json, some: seq<Json>)
    ensures Sat(o, v, One("allOf", JArr(some))) <==> forall i | 0 <= i < |some| :: Sat(o, v, some[i])
    ensures Sat(o, v, One("anyOf", JArr(some))) <==> exists i | 0 <= i < |some| :: Sat(o, v, some[i])
    ensures Sat(o, v, One("oneOf", JArr(some))) <==>
      exists i | 0 <= i < |some| :: Sat(o, v, some[i]) && forall j | 0 <= j < |some| && j != i :: !Sat(o, v, some[j])
  {
    AllMeans(o, v, some);
    AnyMeans(o, v, some);
    OneOfMeans(o, v, some);
  }

  lemma AllMeans(o: Oracles, v: Json, some: seq<Json>)
    ensures Sat(o, v, One("allOf", JArr(some))) <==> forall i | 0 <= i < |some| :: Sat(o, v, some[i])
  {
    var s := One("allOf", JArr(some));
    LogicAlone(o, v, "allOf", JArr(some));
    assert SatAlternatives(o, v, s, AnyOf) && SatAlternatives(o, v, s, OneOf);
    assert forall i | 0 <= i < |some| :: Satisfied(o, v, s, AllOf)[i] <==> Sat(o, v, some[i]);
  }

  lemma AnyMeans(o: Oracles, v: Json, some: seq<Json>)
    ensures Sat(o, v, One("anyOf", JArr(some))) <==> exists i | 0 <= i < |some| :: Sat(o, v, some[i])
  {
    var s := One("anyOf", JArr(some));
    LogicAlone(o, v, "anyOf", JArr(some));
    assert SatAlternatives(o, v, s, AllOf) && SatAlternatives(o, v, s, OneOf);
    assert forall i | 0 <= i < |some| :: Satisfied(o, v, s, AnyOf)[i] <==> Sat(o, v, some[i]);
  }

  lemma OneOfMeans(o: Oracles, v: Json, some: seq<Json>)
    ensures Sat(o, v, One("oneOf", JArr(some))) <==>
      exists i | 0 <= i < |some| :: Sat(o, v, some[i]) && forall j | 0 <= j < |some| && j != i :: !Sat(o, v, some[j])
  {
    var s := One("oneOf", JArr(some));
    LogicAlone(o, v, "oneOf", JArr(some));
    assert SatAlternatives(o, v, s, AllOf) && SatAlternatives(o, v, s, AnyOf);
    var bs := Satisfied(o, v, s, OneOf);
    assert forall i | 0 <= i < |some| :: bs[i] <==> Sat(o, v, some[i]);
    if i :| OnlyAt(bs, i) {
      assert Sat(o, v, some[i]) && forall j | 0 <= j < |some| && j != i :: !Sat(o, v, some[j]);
    }
    if i :| 0 <= i < |some| && Sat(o, v, some[i]) && forall j | 0 <= j < |some| && j != i :: !Sat(o, v, some[j]) {
      assert OnlyAt(bs, i);
    }
  }

  lemma NotMeans(o: Oracles, v: Json, x: Json)
    ensures Sat(o, v, One("not", x)) <==> !Sat(o, v, x)
  {
    var s := One("not", x);
    LogicAlone(o, v, "not", x);
    assert SatAlternatives(o, v, s, AllOf) && SatAlternatives(o, v, s, AnyOf) && SatAlternatives(o, v, s, OneOf);
  }

  // ---------------------------------------------------------------- overflow

  /** Without combinators the overflow is a matter of the parts. */
  lemma OneOverflows(o: Oracles, v: Json, key: string, x: Json)
    requires key !in {"allOf", "anyOf", "oneOf", "not", "type", "enum", "const"}
    ensures Overflows(o, v, One(key, x)) <==> PartsOverflow(o, v, One(key, x))
  {
    var s := One(key, x);
    assert Overflown(o, v, s, AllOf) == Overflown(o, v, s, AnyOf) == Overflown(o, v, s, OneOf) == [];
    assert SatAlternatives(o, v, s, AllOf) && SatAlternatives(o, v, s, AnyOf) && SatAlternatives(o, v, s, OneOf);
    ChoiceFree(v, key, x);
    assert SatLogic(o, v, s) && !LogicOverflows(o, v, s);
  }

  /** A number overflows by itself or by its quotient. */
  lemma MultipleOverflows(o: Oracles, v: Json, x: Json)
    requires Numeric(v) && Numeric(x)
    ensures Overflows(o, v, One("multipleOf", x)) <==> !InDouble(v) || o.quotient(Number(v), Number(x)) == Infinite
  {
    OneOverflows(o, v, "multipleOf", x);
  }

  /** An array overflows with its first item that does not pass. */
  lemma ItemsOverflow(o: Oracles, v: Json, x: Json)
    requires v.JArr?
    ensures Overflows(o, v, One("items", x)) <==> exists i | 0 <= i < |v.items| :: FirstOverflow(o, v.items, x, i)
  {
    var s := One("items", x);
    OneOverflows(o, v, "items", x);
    ItemSeries(o, v, x);
    assert PartsOverflow(o, v, s) <==> Series(ItemVerdicts(o, v, s)) == Overflow;
  }

  ghost predicate FirstOverflow(o: Oracles, items: seq<Json>, x: Json, i: int)
    requires 0 <= i < |items|
  {
    Overflows(o, items[i], x) && forall j | 0 <= j < i :: Sat(o, items[j], x) && !Overflows(o, items[j], x)
  }

  lemma ItemSeries(o: Oracles, v: Json, x: Json)
    requires v.JArr?
    ensures Series(ItemVerdicts(o, v, One("items", x))) == Overflow <==>
      exists i | 0 <= i < |v.items| :: FirstOverflow(o, v.items, x, i)
  {
    var rs := ItemVerdicts(o, v, One("items", x));
    forall i | 0 <= i < |rs| ensures rs[i] == Result(Overflows(o, v.items[i], x), Sat(o, v.items[i], x)) {
      ItemAt(o, v, x, i);
    }
    FirstStop(rs);
    if i :| 0 <= i < |rs| && rs[i] == Overflow && forall j | 0 <= j < i :: rs[j] == Pass {
      assert FirstOverflow(o, v.items, x, i);
    }
    if i :| 0 <= i < |v.items| && FirstOverflow(o, v.items, x, i) {
      assert rs[i] == Overflow && forall j | 0 <= j < i :: rs[j] == Pass;
    }
  }

  /** A series overflows exactly if an overflow is the first that does not pass. */
  lemma {:induction false} FirstStop(rs: seq<Verdict>)
    ensures Series(rs) == Overflow <==> exists i | 0 <= i < |rs| :: rs[i] == Overflow && forall j | 0 <= j < i :: rs[j] == Pass
  {
    if rs != [] && rs[0] == Pass {
      FirstStop(rs[1..]);
      if i :| 0 <= i < |rs| - 1 && rs[1..][i] == Overflow && forall j | 0 <= j < i :: rs[1..][j] == Pass {
        assert rs[i + 1] == Overflow && forall j | 0 <= j < i + 1 :: j == 0 || rs[j] == rs[1..][j - 1];
      }
      if i :| 0 <= i < |rs| && rs[i] == Overflow && forall j | 0 <= j < i :: rs[j] == Pass {
        assert rs[1..][i - 1] == Overflow && forall j | 0 <= j < i - 1 :: rs[1..][j] == rs[j + 1];
      }
    }
  }

  /** Where nothing is asked of the parts, only a number overflows, by itself. */
  lemma PartsQuiet(o: Oracles, v: Json, key: string, x: Json)
    requires key in {"allOf", "anyOf", "oneOf", "not"}
    ensures PartsOverflow(o, v, One(key, x)) <==> !InDouble(v)
  {
    var s := One(key, x);
    if v.JObj? {
      forall i | 0 <= i < |v.keys| ensures MemberVerdicts(o, v, s)[i] == Pass {
        assert v.keys[i] in v.fields ==> !Overflows(o, v.fields[v.keys[i]], JBool(true)) && Sat(o, v.fields[v.keys[i]], JBool(true));
      }
      SeriesPasses(MemberVerdicts(o, v, s));
    }
    if v.JArr? {
      forall i | 0 <= i < |v.items| ensures ItemVerdicts(o, v, s)[i] == Pass {
        assert !Overflows(o, v.items[i], JBool(true)) && Sat(o, v.items[i], JBool(true));
      }
      SeriesPasses(ItemVerdicts(o, v, s));
    }
  }

  lemma AbsentQuiet(o: Oracles, v: Json, key: string, x: Json, c: Combinator)
    requires key != Name(c)
    ensures !CombinatorOverflows(o, v, One(key, x), c) && SatAlternatives(o, v, One(key, x), c)
  {
    assert Overflown(o, v, One(key, x), c) == [];
  }

  lemma LogicOverflowsAlone(o: Oracles, v: Json, key: string, x: Json)
    requires key in {"allOf", "anyOf", "oneOf", "not"}
    ensures
      var s := One(key, x);
      Overflows(o, v, s) <==> LogicOverflows(o, v, s) || (Sat(o, v, s) && !InDouble(v))
  {
    LogicAlone(o, v, key, x);
    ChoiceFree(v, key, x);
    PartsQuiet(o, v, key, x);
  }

  /** What is forbidden is tried all the same, and then the number itself. */
  lemma NotOverflows(o: Oracles, v: Json, x: Json)
    ensures Overflows(o, v, One("not", x)) <==> Overflows(o, v, x) || (!Sat(o, v, x) && !InDouble(v))
  {
    LogicOverflowsAlone(o, v, "not", x);
    AbsentQuiet(o, v, "not", x, AllOf);
    AbsentQuiet(o, v, "not", x, AnyOf);
    AbsentQuiet(o, v, "not", x, OneOf);
    assert One("not", x).fields["not"] == x;
    NotMeans(o, v, x);
  }

  /** Every alternative is tried, so any of them overflows them all. */
  lemma CombinatorOverflowsAlone(o: Oracles, v: Json, c: Combinator, some: seq<Json>)
    ensures
      var s := One(Name(c), JArr(some));
      Overflows(o, v, s) <==> (exists i | 0 <= i < |some| :: Overflows(o, v, some[i])) || (Sat(o, v, s) && !InDouble(v))
  {
    var s := One(Name(c), JArr(some));
    LogicOverflowsAlone(o, v, Name(c), JArr(some));
    forall d | d != c ensures !CombinatorOverflows(o, v, s, d) && SatAlternatives(o, v, s, d) {
      AbsentQuiet(o, v, Name(c), JArr(some), d);
    }
    assert LogicOverflows(o, v, s) <==> CombinatorOverflows(o, v, s, c);
    var over := Overflown(o, v, s, c);
    assert Alternatives(s, c) == some;
    assert |over| == |some| && forall i | 0 <= i < |some| :: over[i] <==> Overflows(o, v, some[i]);
  }

  // ---------------------------------------------------------------- accepted definitions

  lemma LogicUndefined(o: Oracles, key: string, x: Json)
    requires key !in {"allOf", "anyOf", "oneOf", "not"}
    ensures DefinesLogic(o, One(key, x).fields, 0)
  {
  }

  lemma ChildrenUndefined(o: Oracles, key: string, x: Json)
    requires key !in {"properties", "additionalProperties", "items"}
    ensures DefinesChildren(o, One(key, x).fields, 0)
  {
  }

  /** A keyword that holds no schema is accepted if it is well formed itself. */
  lemma PlainAccepted(o: Oracles, key: string, x: Json)
    requires key !in {"allOf", "anyOf", "oneOf", "not", "properties", "additionalProperties", "items"}
    ensures Defined(o, One(key, x), 0) <==> DefinesPlain(o, One(key, x).fields)
  {
    LogicUndefined(o, key, x);
    ChildrenUndefined(o, key, x);
  }

  lemma CountAccepted(o: Oracles, key: string, x: Json)
    requires key in {"minProperties", "maxProperties", "minItems", "maxItems", "minLength", "maxLength"}
    ensures Defined(o, One(key, x), 0) <==> x.JInt? && x.n >= 0
  {
    PlainAccepted(o, key, x);
  }

  lemma BoundAccepted(o: Oracles, key: string, x: Json)
    requires key in {"minimum", "maximum", "exclusiveMinimum", "exclusiveMaximum"}
    ensures Defined(o, One(key, x), 0) <==> x.JReal? || (x.JInt? && InDouble(x))
  {
    PlainAccepted(o, key, x);
  }

  lemma MultipleAccepted(o: Oracles, x: Json)
    ensures Defined(o, One("multipleOf", x), 0) <==> (x.JReal? && x.r > 0.0) || (x.JInt? && x.n > 0 && InDouble(x))
  {
    PlainAccepted(o, "multipleOf", x);
  }

  lemma TypeAccepted(o: Oracles, x: Json)
    ensures Defined(o, One("type", x), 0) <==>
      match x
      case JNull => true
      case JStr(name) => TypeName(name)
      case JArr(names) => names != [] && forall i | 0 <= i < |names| :: names[i].JStr? && TypeName(names[i].s)
      case _ => false
  {
    PlainAccepted(o, "type", x);
    assert Get(One("type", x).fields, "type", JNull) == x;
    match x
    case JStr(name) => assert TypeList(x)[0] == x;
    case JArr(names) => assert TypeList(x) == names;
    case _ =>
  }

  lemma ChoiceAccepted(o: Oracles, x: Json)
    ensures Defined(o, One("enum", x), 0) <==> x.JArr?
    ensures Defined(o, One("const", x), 0)
  {
    PlainAccepted(o, "enum", x);
    PlainAccepted(o, "const", x);
  }

  lemma RequiredAccepted(o: Oracles, x: Json)
    ensures Defined(o, One("required", x), 0) <==> x.JArr? && forall i | 0 <= i < |x.items| :: x.items[i].JStr?
  {
    PlainAccepted(o, "required", x);
  }

  lemma UniqueAccepted(o: Oracles, x: Json)
    ensures Defined(o, One("uniqueItems", x), 0) <==> x.JBool?
  {
    PlainAccepted(o, "uniqueItems", x);
  }

  lemma PatternAccepted(o: Oracles, x: Json)
    ensures Defined(o, One("pattern", x), 0) <==> x.JStr? && o.compiles(x.s)
  {
    PlainAccepted(o, "pattern", x);
  }

  lemma UnsupportedRefused(o: Oracles, key: string, x: Json)
    requires !Supported(key)
    ensures !Defined(o, One(key, x), 0)
  {
    assert key in One(key, x).fields;
  }

  /** An annotation may say anything. */
  lemma AnnotationAccepted(o: Oracles, key: string, x: Json)
    requires Annotation(key) || ("x-" <= key && !Keyword(key))
    ensures Defined(o, One(key, x), 0)
  {
    PlainAccepted(o, key, x);
  }

  lemma SchemaIsPlain(o: Oracles, key: string, x: Json)
    requires key in {"allOf", "anyOf", "oneOf", "not", "properties", "additionalProperties", "items"}
    ensures DefinesPlain(o, One(key, x).fields)
  {
  }

  lemma ChildAccepted(o: Oracles, key: string, x: Json)
    requires key in {"items", "additionalProperties", "properties"}
    ensures Defined(o, One(key, x), 0) <==> DefinesChildren(o, One(key, x).fields, 0)
  {
    SchemaIsPlain(o, key, x);
    LogicUndefined(o, key, x);
  }

  lemma ItemsAccepted(o: Oracles, x: Json)
    ensures Defined(o, One("items", x), 0) <==> Defined(o, x, 1)
  {
    ChildAccepted(o, "items", x);
  }

  lemma AdditionalAccepted(o: Oracles, x: Json)
    ensures Defined(o, One("additionalProperties", x), 0) <==> x.JBool? || (x.JObj? && Defined(o, x, 1))
  {
    ChildAccepted(o, "additionalProperties", x);
  }

  lemma PropertiesAccepted(o: Oracles, x: Json)
    ensures Defined(o, One("properties", x), 0) <==> x.JObj? && forall k | k in x.fields :: Defined(o, x.fields[k], 1)
  {
    ChildAccepted(o, "properties", x);
  }

  lemma CombinatorAccepted(o: Oracles, c: Combinator, x: Json)
    ensures Defined(o, One(Name(c), x), 0) <==> x.JArr? && x.items != [] && forall i | 0 <= i < |x.items| :: Defined(o, x.items[i], 1)
  {
    SchemaIsPlain(o, Name(c), x);
    ChildrenUndefined(o, Name(c), x);
  }

  lemma NotAccepted(o: Oracles, x: Json)
    ensures Defined(o, One("not", x), 0) <==> Defined(o, x, 1)
  {
    SchemaIsPlain(o, "not", x);
    ChildrenUndefined(o, "not", x);
  }

  /** Schemas may nest 64 deep; an object schema, which always has its items below it, 63. */
  lemma DeepestSchema(o: Oracles, s: Json, depth: nat)
    ensures Defined(o, JBool(true), depth) <==> depth <= 64
    ensures Defined(o, s, depth) ==> depth <= 64
    ensures Defined(o, JObj(map[], []), depth) <==> depth <= 63
  {
    var f: map<string, Json> := map[];
    if depth <= 63 {
      assert DefinesAlternatives(o, f, AllOf, depth) && DefinesAlternatives(o, f, AnyOf, depth) && DefinesAlternatives(o, f, OneOf, depth);
      assert DefinesPlain(o, f) && DefinesLogic(o, f, depth);
      assert Defined(o, JBool(true), depth + 1);
      assert DefinesChildren(o, f, depth);
    } else if depth == 64 && Defined(o, JObj(f, []), depth) {
      DefinedParts(o, JObj(f, []), depth);
    }
  }
}
