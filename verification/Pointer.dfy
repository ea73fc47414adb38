/** JSON Pointer (RFC 6901): splitting and unescaping reference tokens, and
    evaluating them against a decoded value. */
module Pointer {
  import opened Basics
  import opened Decimal
  import opened Json

  // ----- Library text operations -----

  /** The pieces of s between separators; always at least one. */
  function Split(s: string, sep: char): (parts: seq<string>)
    ensures parts != []
  {
    if s == "" then [""]
    else
      var parts := Split(s[1..], sep);
      if s[0] == sep then [""] + parts else [[s[0]] + parts[0]] + parts[1..]
  }

  /** Replaces every occurrence of the pair ab, left to right, by c. */
  function ReplacePair(s: string, a: char, b: char, c: char): string {
    if s == "" then ""
    else if |s| >= 2 && s[0] == a && s[1] == b then [c] + ReplacePair(s[2..], a, b, c)
    else [s[0]] + ReplacePair(s[1..], a, b, c)
  }

  // ----- Escaping, as section 3 of RFC 6901 defines it -----

  function Escape(t: string): string {
    if t == "" then ""
    else (if t[0] == '~' then "~0" else if t[0] == '/' then "~1" else [t[0]]) + Escape(t[1..])
  }

  predicate ValidEscapes(t: string) {
    t == ""
    || (t[0] != '~' && ValidEscapes(t[1..]))
    || (t[0] == '~' && |t| >= 2 && (t[1] == '0' || t[1] == '1') && ValidEscapes(t[2..]))
  }

  /** One left-to-right pass over a token with valid escapes. */
  function Unescape(t: string): string {
    if t == "" then ""
    else if t[0] == '~' && |t| >= 2 && t[1] == '1' then "/" + Unescape(t[2..])
    else if t[0] == '~' && |t| >= 2 && t[1] == '0' then "~" + Unescape(t[2..])
    else [t[0]] + Unescape(t[1..])
  }

  function UnescapeAll(parts: seq<string>): seq<string> {
    seq(|parts|, i requires 0 <= i < |parts| => Unescape(parts[i]))
  }

  predicate AllValid(parts: seq<string>) {
    forall i :: 0 <= i < |parts| ==> ValidEscapes(parts[i])
  }

  /** The reference tokens of a pointer, or nothing when it is malformed. */
  function Tokens(pointer: string): Option<seq<string>> {
    if pointer == "" then Some([])
    else if pointer[0] != '/' then None
    else
      var parts := Split(pointer[1..], '/');
      if AllValid(parts) then Some(UnescapeAll(parts)) else None
  }

  function Render(tokens: seq<string>): string {
    if tokens == [] then "" else "/" + (Escape(tokens[0]) + Render(tokens[1..]))
  }

  method PointerTokens(pointer: string) returns (r: Option<seq<string>>)
    ensures r == Tokens(pointer)
  {
    if pointer == "" {
      return Some([]);
    }
    if pointer[0] != '/' {
      return None;
    }
    var parts := Split(pointer[1..], '/');
    var tokens := parts;
    for i := 0 to |parts|
      invariant |tokens| == |parts|
      invariant AllValid(parts[..i])
      invariant forall k :: 0 <= k < i ==> tokens[k] == Unescape(parts[k])
      invariant forall k :: i <= k < |parts| ==> tokens[k] == parts[k]
    {
      var token := tokens[i];
      var j := 0;
      while j < |token|
        invariant 0 <= j <= |token|
        invariant ValidEscapes(token) <==> ValidEscapes(token[j..])
      {
        EscapeStep(token, j);
        if token[j] == '~' {
          j := j + 1;
          if j >= |token| || (token[j] != '0' && token[j] != '1') {
            return None;
          }
        }
        j := j + 1;
      }
      assert ValidEscapes(token);
      TwoPassesUnescape(token);
      assert parts[..i + 1] == parts[..i] + [token];
      tokens := tokens[i := ReplacePair(ReplacePair(token, '~', '1', '/'), '~', '0', '~')];
    }
    assert parts[..|parts|] == parts;
    assert tokens == UnescapeAll(parts);
    return Some(tokens);
  }

  lemma EscapeStep(token: string, j: nat)
    requires j < |token|
    ensures token[j] != '~' ==> (ValidEscapes(token[j..]) <==> ValidEscapes(token[j + 1..]))
    ensures token[j] == '~' ==>
      (ValidEscapes(token[j..])
       <==> j + 1 < |token| && (token[j + 1] == '0' || token[j + 1] == '1') && ValidEscapes(token[j + 2..]))
  {
    assert token[j..][1..] == token[j + 1..];
    if j + 1 < |token| {
      assert token[j..][2..] == token[j + 2..];
    }
  }

  /** Replacing ~1 and then ~0 is the one-pass unescape, on tokens whose escapes are valid. */
  lemma {:induction false} TwoPassesUnescape(t: string)
    requires ValidEscapes(t)
    ensures ReplacePair(ReplacePair(t, '~', '1', '/'), '~', '0', '~') == Unescape(t)
    decreases |t|
  {
    if t == "" {
    } else if t[0] == '~' {
      var rest := ReplacePair(t[2..], '~', '1', '/');
      TwoPassesUnescape(t[2..]);
      if t[1] == '1' {
        assert ReplacePair(t, '~', '1', '/') == ['/'] + rest;
        assert (['/'] + rest)[1..] == rest;
      } else {
        assert t[1..][1..] == t[2..];
        assert ReplacePair(t[1..], '~', '1', '/') == ['0'] + rest;
        assert ReplacePair(t, '~', '1', '/') == ['~', '0'] + rest;
        assert (['~', '0'] + rest)[2..] == rest;
      }
    } else {
      var rest := ReplacePair(t[1..], '~', '1', '/');
      TwoPassesUnescape(t[1..]);
      assert ReplacePair(t, '~', '1', '/') == [t[0]] + rest;
      assert ([t[0]] + rest)[1..] == rest;
    }
  }

  // ----- Rendering and parsing pointers are inverse -----

  lemma {:induction false} EscapeInverse(t: string)
    ensures ValidEscapes(Escape(t)) && Unescape(Escape(t)) == t && '/' !in Escape(t)
  {
    if t != "" {
      var rest := Escape(t[1..]);
      EscapeInverse(t[1..]);
      if t[0] == '~' || t[0] == '/' {
        assert Escape(t)[2..] == rest;
      } else {
        assert Escape(t)[1..] == rest;
      }
    }
  }

  lemma {:induction false} UnescapeInverse(t: string)
    requires ValidEscapes(t) && '/' !in t
    ensures Escape(Unescape(t)) == t
    decreases |t|
  {
    if t == "" {
    } else if t[0] == '~' {
      UnescapeInverse(t[2..]);
      assert Unescape(t)[1..] == Unescape(t[2..]);
      assert t == [t[0], t[1]] + t[2..];
    } else {
      UnescapeInverse(t[1..]);
      assert Unescape(t)[1..] == Unescape(t[1..]);
      assert t[0] in t;
      assert t == [t[0]] + t[1..];
    }
  }

  lemma {:induction false} SplitConcat(a: string, s: string, sep: char)
    ensures Split(a + ([sep] + s), sep) == Split(a, sep) + Split(s, sep)
    ensures sep !in a ==> Split(a, sep) == [a]
  {
    var tail := [sep] + s;
    assert tail[1..] == s;
    if a == "" {
      assert a + tail == tail;
    } else {
      SplitConcat(a[1..], s, sep);
      assert (a + tail)[1..] == a[1..] + tail;
      var first, others := Split(a[1..], sep), Split(s, sep);
      if a[0] == sep {
        Associates([""], first, others);
      } else {
        assert (first + others)[1..] == first[1..] + others;
        Associates([[a[0]] + first[0]], first[1..], others);
        assert [a[0]] + a[1..] == a;
      }
    }
  }

  /** The pieces of a string contain no separator and join back to it. */
  function Joined(parts: seq<string>, sep: char): string
    requires parts != []
  {
    if |parts| == 1 then parts[0] else parts[0] + ([sep] + Joined(parts[1..], sep))
  }

  lemma {:induction false} SplitPieces(s: string, sep: char)
    ensures Joined(Split(s, sep), sep) == s
    ensures forall i :: 0 <= i < |Split(s, sep)| ==> sep !in Split(s, sep)[i]
  {
    if s != "" {
      var parts := Split(s[1..], sep);
      SplitPieces(s[1..], sep);
      assert s == [s[0]] + s[1..];
      if s[0] == sep {
        assert ([""] + parts)[1..] == parts;
        assert "" + ([sep] + Joined(parts, sep)) == s;
      } else {
        var glued := [[s[0]] + parts[0]] + parts[1..];
        assert glued[1..] == parts[1..];
        if |parts| > 1 {
          var rest := [sep] + Joined(parts[1..], sep);
          assert [s[0]] + (parts[0] + rest) == ([s[0]] + parts[0]) + rest;
        }
      }
    }
  }

  lemma {:induction false} RenderSplit(tokens: seq<string>)
    requires tokens != []
    ensures var p := Render(tokens);
      && p[0] == '/'
      && |Split(p[1..], '/')| == |tokens|
      && forall i :: 0 <= i < |tokens| ==> Split(p[1..], '/')[i] == Escape(tokens[i])
  {
    var p, others := Render(tokens), tokens[1..];
    EscapeInverse(tokens[0]);
    if others == [] {
      assert Render(others) == "";
      assert p[1..] == Escape(tokens[0]);
      SplitConcat(Escape(tokens[0]), "", '/');
    } else {
      RenderSplit(others);
      var q := Render(others);
      assert q == "/" + q[1..];
      assert p[1..] == Escape(tokens[0]) + ("/" + q[1..]);
      SplitConcat(Escape(tokens[0]), q[1..], '/');
      assert forall i :: 0 < i < |tokens| ==> tokens[i] == others[i - 1];
    }
  }

  /** Parsing inverts rendering for every list of tokens. */
  lemma TokensOfRender(tokens: seq<string>)
    ensures Tokens(Render(tokens)) == Some(tokens)
  {
    if tokens != [] {
      RenderSplit(tokens);
      var parts := Split(Render(tokens)[1..], '/');
      forall i | 0 <= i < |parts|
        ensures ValidEscapes(parts[i]) && Unescape(parts[i]) == tokens[i]
      {
        EscapeInverse(tokens[i]);
      }
      assert UnescapeAll(parts) == tokens;
    }
  }

  lemma {:induction false} RenderJoined(parts: seq<string>, tokens: seq<string>)
    requires parts != [] && |parts| == |tokens|
    requires forall i :: 0 <= i < |parts| ==> Escape(tokens[i]) == parts[i]
    ensures Render(tokens) == "/" + Joined(parts, '/')
  {
    if |parts| == 1 {
      assert Render(tokens[1..]) == "";
      assert Escape(tokens[0]) + "" == parts[0];
    } else {
      RenderJoined(parts[1..], tokens[1..]);
    }
  }

  /** Rendering inverts parsing for every well-formed pointer. */
  lemma RenderOfTokens(pointer: string)
    requires Tokens(pointer).Some?
    ensures Render(Tokens(pointer).value) == pointer
  {
    if pointer != "" {
      var parts, tokens := Split(pointer[1..], '/'), Tokens(pointer).value;
      SplitPieces(pointer[1..], '/');
      forall i | 0 <= i < |parts|
        ensures Escape(tokens[i]) == parts[i]
      {
        UnescapeInverse(parts[i]);
      }
      RenderJoined(parts, tokens);
      assert pointer == "/" + pointer[1..];
    }
  }

  // ----- Evaluation, as section 4 of RFC 6901 defines it -----

  // A token that strconv.Atoi refuses as too large also lies beyond any slice.
  predicate IsIndex(token: string) {
    token != "" && IsDigits(token) && (|token| > 1 ==> token[0] != '0')
  }

  function Child(v: Value, token: string): Option<Value> {
    if v.Object? then
      if token in v.members then Some(v.members[token]) else None
    else if v.Array? && IsIndex(token) && ParseNat(token) < |v.items| then
      Some(v.items[ParseNat(token)])
    else None
  }

  function PointerValueOf(v: Value, tokens: seq<string>): Option<Value> {
    if tokens == [] then Some(v)
    else
      var child :- Child(v, tokens[0]);
      PointerValueOf(child, tokens[1..])
  }

  method PointerValue(document: Value, tokens: seq<string>) returns (r: Option<Value>)
    ensures r == PointerValueOf(document, tokens)
  {
    var value := document;
    for i := 0 to |tokens|
      invariant PointerValueOf(document, tokens) == PointerValueOf(value, tokens[i..])
    {
      var token := tokens[i];
      assert tokens[i..][1..] == tokens[i + 1..];
      match value
      case Object(members) =>
        if token !in members {
          return None;
        }
        value := members[token];
      case Array(items) =>
        if token == "" || (|token| > 1 && token[0] == '0') {
          return None;
        }
        for c := 0 to |token|
          invariant IsDigits(token[..c])
        {
          if !IsDigit(token[c]) {
            assert !IsDigits(token);
            return None;
          }
        }
        assert token[..|token|] == token;
        var index := ParseNat(token);
        if index >= |items| {
          return None;
        }
        value := items[index];
      case _ => return None;
    }
    return Some(value);
  }

  /** A position in a value: a member name or an element index per level. */
  datatype Step = Key(name: string) | Index(i: nat)

  ghost function NodeAt(v: Value, path: seq<Step>): Option<Value> {
    if path == [] then Some(v)
    else
      match path[0]
      case Key(name) => if v.Object? && name in v.members then NodeAt(v.members[name], path[1..]) else None
      case Index(i) => if v.Array? && i < |v.items| then NodeAt(v.items[i], path[1..]) else None
  }

  function StepToken(s: Step): string {
    match s
    case Key(name) => name
    case Index(i) => NatString(i)
  }

  function PathTokens(path: seq<Step>): seq<string> {
    seq(|path|, i requires 0 <= i < |path| => StepToken(path[i]))
  }

  lemma IndexToken(i: nat)
    ensures IsIndex(NatString(i)) && ParseNat(NatString(i)) == i
  {
    ParseNatString(i);
    NatStringHead(i);
  }

  lemma {:induction false} NatStringHead(n: nat)
    ensures NatString(n)[0] == '0' ==> NatString(n) == "0"
  {
    if n >= 10 {
      NatStringHead(n / 10);
    }
  }

  lemma {:induction false} NodeIsPointed(v: Value, path: seq<Step>)
    requires NodeAt(v, path).Some?
    ensures PointerValueOf(v, PathTokens(path)) == NodeAt(v, path)
  {
    if path != [] {
      var tokens := PathTokens(path);
      assert tokens[1..] == PathTokens(path[1..]);
      if path[0].Index? {
        IndexToken(path[0].i);
      }
      NodeIsPointed(Child(v, tokens[0]).value, path[1..]);
    }
  }

  lemma {:induction false} PointedIsNode(v: Value, tokens: seq<string>) returns (path: seq<Step>)
    requires PointerValueOf(v, tokens).Some?
    ensures PathTokens(path) == tokens && NodeAt(v, path) == PointerValueOf(v, tokens)
  {
    if tokens == [] {
      path := [];
    } else {
      var others := PointedIsNode(Child(v, tokens[0]).value, tokens[1..]);
      var step := if v.Object? then Key(tokens[0]) else Index(ParseNat(tokens[0]));
      path := [step] + others;
      assert path[1..] == others;
      if v.Array? {
        NatStringParse(tokens[0]);
      }
      assert tokens == [StepToken(step)] + PathTokens(others);
    }
  }

  /** Evaluating a pointer text against a value. */
  function Evaluate(v: Value, pointer: string): Option<Value> {
    var tokens :- Tokens(pointer);
    PointerValueOf(v, tokens)
  }

  /** Main result: a pointer selects n exactly when it is the printed path of a node equal to n. */
  lemma EvaluateExact(v: Value, pointer: string, n: Value)
    ensures Evaluate(v, pointer) == Some(n)
      <==> exists path :: Render(PathTokens(path)) == pointer && NodeAt(v, path) == Some(n)
  {
    if Evaluate(v, pointer) == Some(n) {
      var path := PointedIsNode(v, Tokens(pointer).value);
      RenderOfTokens(pointer);
    }
    forall path | Render(PathTokens(path)) == pointer && NodeAt(v, path) == Some(n)
      ensures Evaluate(v, pointer) == Some(n)
    {
      TokensOfRender(PathTokens(path));
      NodeIsPointed(v, path);
    }
  }
}
