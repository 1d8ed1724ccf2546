/** JSON pointers, as in sections 3 and 4 of RFC 6901: escaping, splitting, resolving. */
module JsonPointer {
  import opened Wrappers
  import opened Decimals
  import opened JsonSchema

  /** Each occurrence of one character replaced by a text. */
  function ReplaceChar(s: string, c: char, put: string): string {
    if s == "" then "" else (if s[0] == c then put else [s[0]]) + ReplaceChar(s[1..], c, put)
  }

  /** Each occurrence, from the left, of a two-character text replaced by one character. */
  function ReplacePair(s: string, a: char, b: char, put: char): string {
    if |s| >= 2 && s[0] == a && s[1] == b then [put] + ReplacePair(s[2..], a, b, put)
    else if s == "" then ""
    else [s[0]] + ReplacePair(s[1..], a, b, put)
  }

  function Escape(key: string): string {
    ReplaceChar(ReplaceChar(key, '~', "~0"), '/', "~1")
  }

  function Unescape(raw: string): string {
    ReplacePair(ReplacePair(raw, '~', '1', '/'), '~', '0', '~')
  }

  predicate ValidEscapes(raw: string) {
    forall i | 0 <= i < |raw| && raw[i] == '~' :: i + 1 < |raw| && raw[i + 1] in {'0', '1'}
  }

  /** One character escaped: the two replacements act on each character on its own. */
  function EscapeChar(c: char): string {
    if c == '~' then "~0" else if c == '/' then "~1" else [c]
  }

  lemma {:induction false} ReplaceConcat(s: string, t: string, c: char, put: string)
    ensures ReplaceChar(s + t, c, put) == ReplaceChar(s, c, put) + ReplaceChar(t, c, put)
  {
    if s == "" {
      assert s + t == t;
    } else {
      ReplaceConcat(s[1..], t, c, put);
      var head := if s[0] == c then put else [s[0]];
      assert (s + t)[0] == s[0] && (s + t)[1..] == s[1..] + t;
      assert head + (ReplaceChar(s[1..], c, put) + ReplaceChar(t, c, put))
          == (head + ReplaceChar(s[1..], c, put)) + ReplaceChar(t, c, put);
    }
  }

  lemma EscapeFirst(key: string)
    requires key != ""
    ensures Escape(key) == EscapeChar(key[0]) + Escape(key[1..])
  {
    var head := if key[0] == '~' then "~0" else [key[0]];
    var tail := ReplaceChar(key[1..], '~', "~0");
    ReplaceConcat(head, tail, '/', "~1");
    assert ReplaceChar(head, '/', "~1") == EscapeChar(key[0]) by {
      assert head[1..] == "0" || head[1..] == "";
      assert key[0] == '~' ==> head[1..][1..] == "";
    }
  }

  /** A tilde is written as ~0 and a slash as ~1, and every other character as it is. */
  lemma EscapesByCharacter(key: string)
    ensures Escape("") == ""
    ensures key != "" && key[0] == '~' ==> Escape(key) == "~0" + Escape(key[1..])
    ensures key != "" && key[0] == '/' ==> Escape(key) == "~1" + Escape(key[1..])
    ensures key != "" && key[0] !in "~/" ==> Escape(key) == [key[0]] + Escape(key[1..])
  {
    if key != "" {
      EscapeFirst(key);
    }
  }

  /** Half way through unescaping, the slashes are back and the tildes are not. */
  lemma {:induction false} SlashesReturn(key: string)
    ensures ReplacePair(Escape(key), '~', '1', '/') == ReplaceChar(key, '~', "~0")
  {
    if key != "" {
      EscapeFirst(key);
      SlashesReturn(key[1..]);
      var e, rest := Escape(key), Escape(key[1..]);
      if key[0] == '~' {
        assert e[1..] == "0" + rest && e[1..][1..] == rest;
      } else if key[0] == '/' {
        assert e[2..] == rest;
      } else {
        assert e[1..] == rest;
      }
    }
  }

  lemma {:induction false} TildesReturn(key: string)
    ensures ReplacePair(ReplaceChar(key, '~', "~0"), '~', '0', '~') == key
  {
    if key != "" {
      TildesReturn(key[1..]);
      var e, rest := ReplaceChar(key, '~', "~0"), ReplaceChar(key[1..], '~', "~0");
      if key[0] == '~' {
        assert e[2..] == rest;
      } else {
        assert e[1..] == rest;
      }
    }
  }

  /** Escaping and unescaping undo each other, for every key. */
  lemma EscapeReturns(key: string)
    ensures Unescape(Escape(key)) == key
  {
    SlashesReturn(key);
    TildesReturn(key);
  }

  /** An escaped key is one well-formed reference token. */
  lemma {:induction false} EscapedIsToken(key: string)
    ensures '/' !in Escape(key) && ValidEscapes(Escape(key))
  {
    if key != "" {
      EscapeFirst(key);
      EscapedIsToken(key[1..]);
      var e, head, rest := Escape(key), EscapeChar(key[0]), Escape(key[1..]);
      forall i | 0 <= i < |e| && e[i] == '~' ensures i + 1 < |e| && e[i + 1] in {'0', '1'} {
        if i >= |head| {
          assert e[i] == rest[i - |head|];
          assert e[i + 1] == rest[i - |head| + 1];
        }
      }
    }
  }

  /** Every well-formed reference token is the escaped form of one key, so escaping is onto
      the tokens as well. */
  lemma {:induction false} TokenIsEscaped(raw: string) returns (key: string)
    requires '/' !in raw && ValidEscapes(raw)
    ensures Escape(key) == raw && Unescape(raw) == key
  {
    if raw == "" {
      key := "";
    } else if raw[0] == '~' {
      assert ValidEscapes(raw[2..]) by {
        assert forall i | 0 <= i < |raw| - 2 :: raw[2..][i] == raw[i + 2];
      }
      var rest := TokenIsEscaped(raw[2..]);
      key := (if raw[1] == '0' then "~" else "/") + rest;
      EscapeFirst(key);
      assert key[1..] == rest && raw == [raw[0], raw[1]] + raw[2..];
    } else {
      assert ValidEscapes(raw[1..]) by {
        assert forall i | 0 <= i < |raw| - 1 :: raw[1..][i] == raw[i + 1];
      }
      var rest := TokenIsEscaped(raw[1..]);
      key := [raw[0]] + rest;
      EscapeFirst(key);
      assert key[1..] == rest && raw == [raw[0]] + raw[1..];
    }
    EscapeReturns(key);
  }

  // ---------------------------------------------------------------- splitting

  function Split(s: string): (tokens: seq<string>)
    ensures tokens != []
  {
    if s == "" then [""]
    else
      var rest := Split(s[1..]);
      if s[0] == '/' then [""] + rest else [[s[0]] + rest[0]] + rest[1..]
  }

  function Joined(tokens: seq<string>): string
    requires tokens != []
  {
    if |tokens| == 1 then tokens[0] else tokens[0] + "/" + Joined(tokens[1..])
  }

  lemma {:induction false} SplitToken(token: string, s: string)
    requires '/' !in token
    ensures Split(token) == [token]
    ensures Split(token + "/" + s) == [token] + Split(s)
  {
    if token == "" {
      assert ("" + "/" + s)[1..] == s;
    } else {
      SplitToken(token[1..], s);
      assert (token + "/" + s)[1..] == token[1..] + "/" + s;
      assert token == [token[0]] + token[1..];
    }
  }

  lemma {:induction false} SplitJoined(tokens: seq<string>)
    requires tokens != [] && forall i | 0 <= i < |tokens| :: '/' !in tokens[i]
    ensures Split(Joined(tokens)) == tokens
  {
    if |tokens| == 1 {
      SplitToken(tokens[0], "");
    } else {
      SplitJoined(tokens[1..]);
      SplitToken(tokens[0], Joined(tokens[1..]));
    }
  }

  // ---------------------------------------------------------------- resolving

  /** One token taken on one value; `None` where the source raises. */
  function Follow(current: Json, raw: string): Option<Json> {
    if !ValidEscapes(raw) then None
    else
      var token := Unescape(raw);
      match current
      case JObj(fields, _) => if token in fields then Some(fields[token]) else None
      case JArr(items) => if token != "" && Digits(token) && Value(token) < |items| then Some(items[Value(token)]) else None
      case _ => None
  }

  function Resolved(value: Json, tokens: seq<string>): Option<Json> {
    if tokens == [] then Some(value)
    else
      match Follow(value, tokens[0])
      case None => None
      case Some(next) => Resolved(next, tokens[1..])
  }

  /** A tilde that escapes nothing fails the whole pointer, whatever the value is. */
  lemma {:induction false} BadEscapeFails(value: Json, tokens: seq<string>, i: nat, j: nat)
    requires i < |tokens| && j < |tokens[i]| && tokens[i][j] == '~'
    requires j + 1 == |tokens[i]| || tokens[i][j + 1] !in {'0', '1'}
    ensures Resolved(value, tokens) == None
  {
    if i > 0 {
      var next := Follow(value, tokens[0]);
      if next.Some? {
        BadEscapeFails(next.value, tokens[1..], i - 1, j);
      }
    }
  }

  /** A well-formed token leads where its key leads, and nowhere from a value without parts. */
  lemma FollowsKey(value: Json, key: string)
    ensures value.JObj? ==> Follow(value, Escape(key)) == (if key in value.fields then Some(value.fields[key]) else None)
    ensures value.JArr? && key != "" && Digits(key) && Value(key) < |value.items| ==>
      Follow(value, Escape(key)) == Some(value.items[Value(key)])
    ensures value.JArr? && !(key != "" && Digits(key) && Value(key) < |value.items|) ==> Follow(value, Escape(key)) == None
    ensures !value.JObj? && !value.JArr? ==> Follow(value, Escape(key)) == None
  {
    EscapeReturns(key);
    EscapedIsToken(key);
  }

  method Resolve(value: Json, pointer: string) returns (r: Option<Json>)
    ensures r == if "/" <= pointer then Resolved(value, Split(pointer[1..])) else None
  {
    if !("/" <= pointer) {
      return None;
    }
    var tokens := Split(pointer[1..]);
    var current := value;
    for i := 0 to |tokens|
      invariant Resolved(value, tokens) == Resolved(current, tokens[i..])
    {
      var next := Follow(current, tokens[i]);
      assert tokens[i..][1..] == tokens[i + 1..];
      if next.None? {
        return None;
      }
      current := next.value;
    }
    r := Some(current);
  }

  /** A step into an object by key, or into an array by index. */
  datatype Step = Member(key: string) | Element(index: nat)

  /** Where a path of steps leads, without any notation.  A step that meets the other kind
      of container is read the way the container reads it: a number at an array is an
      index, and an index at an object is its decimal key. */
  function Walk(value: Json, path: seq<Step>): Option<Json> {
    if path == [] then Some(value)
    else
      match value
      case JObj(fields, _) =>
        var key := match path[0] case Member(key) => key case Element(index) => Decimal(index);
        if key in fields then Walk(fields[key], path[1..]) else None
      case JArr(items) =>
        (match path[0]
         case Member(key) => if key != "" && Digits(key) && Value(key) < |items| then Walk(items[Value(key)], path[1..]) else None
         case Element(index) => if index < |items| then Walk(items[index], path[1..]) else None)
      case _ => None
  }

  function Token(step: Step): string {
    match step
    case Member(key) => Escape(key)
    case Element(index) => Decimal(index)
  }

  function Tokens(path: seq<Step>): (r: seq<string>)
    ensures |r| == |path| && forall i | 0 <= i < |r| :: r[i] == Token(path[i])
  {
    seq(|path|, i requires 0 <= i < |path| => Token(path[i]))
  }

  function Pointer(path: seq<Step>): string
    requires path != []
  {
    "/" + Joined(Tokens(path))
  }

  lemma {:induction false} PlainUnescapes(s: string)
    requires '~' !in s
    ensures Unescape(s) == s
  {
    PairAbsent(s, '1', '/');
    PairAbsent(s, '0', '~');
  }

  lemma {:induction false} PairAbsent(s: string, b: char, put: char)
    requires '~' !in s
    ensures ReplacePair(s, '~', b, put) == s
  {
    if s != "" {
      PairAbsent(s[1..], b, put);
    }
  }

  lemma TokenReturns(step: Step)
    ensures '/' !in Token(step) && ValidEscapes(Token(step))
    ensures Unescape(Token(step)) == match step case Member(key) => key case Element(index) => Decimal(index)
  {
    match step
    case Member(key) =>
      EscapeReturns(key);
      EscapedIsToken(key);
    case Element(index) =>
      PlainUnescapes(Decimal(index));
  }

  lemma {:induction false} TokensWalk(value: Json, path: seq<Step>)
    ensures Resolved(value, Tokens(path)) == Walk(value, path)
  {
    if path != [] {
      TokenReturns(path[0]);
      assert Tokens(path)[1..] == Tokens(path[1..]);
      if path[0].Element? {
        ReadsBack(path[0].index);
      }
      var next := Follow(value, Tokens(path)[0]);
      if next.Some? {
        TokensWalk(next.value, path[1..]);
      }
    }
  }

  /** Writing a path as a pointer and resolving it walks exactly that path, and finds
      nothing exactly where the path leads nowhere. */
  lemma PointerWalks(value: Json, path: seq<Step>)
    requires path != []
    ensures Resolved(value, Split(Pointer(path)[1..])) == Walk(value, path)
  {
    forall i | 0 <= i < |path| ensures '/' !in Tokens(path)[i] {
      TokenReturns(path[i]);
    }
    SplitJoined(Tokens(path));
    assert Pointer(path)[1..] == Joined(Tokens(path));
    TokensWalk(value, path);
  }

  ghost predicate AllMembers(path: seq<Step>) {
    forall i | 0 <= i < |path| :: path[i].Member?
  }

  /** Different paths of keys have different pointers. */
  lemma PointerInjective(p: seq<Step>, q: seq<Step>)
    requires p != [] && q != [] && AllMembers(p) && AllMembers(q) && Pointer(p) == Pointer(q)
    ensures p == q
  {
    forall i | 0 <= i < |p| ensures '/' !in Tokens(p)[i] {
      TokenReturns(p[i]);
    }
    forall i | 0 <= i < |q| ensures '/' !in Tokens(q)[i] {
      TokenReturns(q[i]);
    }
    SplitJoined(Tokens(p));
    SplitJoined(Tokens(q));
    assert Pointer(p)[1..] == Joined(Tokens(p)) && Pointer(q)[1..] == Joined(Tokens(q));
    assert Tokens(p) == Tokens(q);
    forall i | 0 <= i < |p| ensures p[i] == q[i] {
      assert Tokens(p)[i] == Tokens(q)[i];
      TokenReturns(p[i]);
      TokenReturns(q[i]);
    }
  }
}
