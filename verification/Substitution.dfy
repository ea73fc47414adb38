/** The three template substituters: {{var}} for captured values, ${VAR} for the
    environment and {param} for policy paths. */
module Substitution {
  import opened Basics

  // ----- Searching -----

  /** The first position at which p occurs in s, or -1. */
  function Index(s: string, p: string): (i: int)
    ensures -1 <= i && (i >= 0 ==> i + |p| <= |s|)
  {
    if |p| <= |s| && s[..|p|] == p then 0
    else if s == "" then -1
    else
      var i := Index(s[1..], p);
      if i < 0 then -1 else i + 1
  }

  /** The text before and after the first occurrence of p. */
  function Cut(s: string, p: string): (r: Option<(string, string)>)
    ensures r.Some? ==> |r.value.0| + |p| + |r.value.1| == |s|
  {
    if |p| <= |s| && s[..|p|] == p then Some(("", s[|p|..]))
    else if s == "" then None
    else
      var (a, b) :- Cut(s[1..], p);
      Some(([s[0]] + a, b))
  }

  lemma {:induction false} IndexIsCut(s: string, p: string)
    ensures var i := Index(s, p);
      if i < 0 then Cut(s, p).None? else Cut(s, p) == Some((s[..i], s[i + |p|..]))
  {
    if !(|p| <= |s| && s[..|p|] == p) && s != "" {
      IndexIsCut(s[1..], p);
      var i := Index(s, p);
      if i >= 0 {
        assert [s[0]] + s[1..][..i - 1] == s[..i];
        assert s[1..][i - 1 + |p|..] == s[i + |p|..];
      }
    }
  }

  /** No occurrence of p in a followed by p before the last one. */
  ghost predicate EndsAtFirst(a: string, p: string) {
    Cut(a + p, p) == Some((a, ""))
  }

  lemma {:induction false} CutExtend(a: string, p: string, s: string)
    requires EndsAtFirst(a, p)
    ensures Cut(a + (p + s), p) == Some((a, s))
  {
    var t := a + (p + s);
    assert t[..|p|] == (a + p)[..|p|];
    if a == "" {
      assert t[|p|..] == s;
    } else {
      assert (a + p)[1..] == a[1..] + p;
      assert t[1..] == a[1..] + (p + s);
      assert Cut(a[1..] + p, p) == Some((a[1..], ""));
      CutExtend(a[1..], p, s);
      assert [a[0]] + a[1..] == a;
    }
  }

  lemma EndsStep(c: char, a: string, p: string)
    requires EndsAtFirst(a, p) && !(p <= [c] + a + p)
    ensures EndsAtFirst([c] + a, p)
  {
    var t := [c] + a + p;
    assert t[1..] == a + p;
    assert t[..|p|] != p;
  }

  lemma {:induction false} CutSound(s: string, p: string)
    requires Cut(s, p).Some?
    ensures var (a, b) := Cut(s, p).value; s == a + (p + b) && EndsAtFirst(a, p)
  {
    hide EndsAtFirst;
    if |p| <= |s| && s[..|p|] == p {
      NothingBefore(p);
    } else {
      CutSound(s[1..], p);
      var (a, b) := Cut(s[1..], p).value;
      assert s == ([s[0]] + a + p) + b;
      EndsStep(s[0], a, p);
    }
  }

  lemma NothingBefore(p: string)
    ensures EndsAtFirst("", p)
  {
    assert ("" + p)[..|p|] == p && ("" + p)[|p|..] == "";
  }

  // No occurrence can start in a prefix that avoids the first character of the pattern.
  lemma {:induction false} CutSkip(a: string, s: string, p: string)
    requires p != "" && p[0] !in a
    ensures Cut(a + s, p) == var (x, y) :- Cut(s, p); Some((a + x, y))
  {
    if a == "" {
      assert a + s == s;
      if Cut(s, p).Some? {
        assert a + Cut(s, p).value.0 == Cut(s, p).value.0;
      }
    } else {
      var t := a + s;
      assert t[1..] == a[1..] + s;
      assert t[0] == a[0] && a[0] in a;
      assert |p| <= |t| ==> t[..|p|][0] == t[0];
      CutSkip(a[1..], s, p);
      if Cut(s, p).Some? {
        assert [a[0]] + (a[1..] + Cut(s, p).value.0) == a + Cut(s, p).value.0;
      }
    }
  }

  /** p stands at position i of s. */
  predicate OccursAt(s: string, p: string, i: nat) {
    i + |p| <= |s| && s[i..i + |p|] == p
  }

  /** Cutting finds the first occurrence: what is before and behind it, or that there is none. */
  lemma {:induction false} CutExact(s: string, p: string)
    ensures Cut(s, p).Some? ==>
      var (a, b) := Cut(s, p).value;
      s == a + p + b && forall i :: 0 <= i < |a| ==> !OccursAt(s, p, i)
    ensures Cut(s, p).None? ==> forall i :: 0 <= i <= |s| ==> !OccursAt(s, p, i)
    decreases |s|
  {
    if |p| <= |s| && s[..|p|] == p {
      assert s == "" + p + s[|p|..];
    } else if s != "" {
      CutExact(s[1..], p);
      assert !OccursAt(s, p, 0);
      forall i | 0 < i <= |s|
        ensures OccursAt(s, p, i) <==> OccursAt(s[1..], p, i - 1)
      {
        if i + |p| <= |s| {
          assert s[i..i + |p|] == s[1..][i - 1..i - 1 + |p|];
        }
      }
      if Cut(s, p).Some? {
        var (a, b) := Cut(s[1..], p).value;
        assert [s[0]] + a + p + b == [s[0]] + (a + p + b);
      }
    }
  }

  // ----- Templates -----

  /** A template alternates literal text with holes. */
  datatype Piece = Text(text: string) | Hole(name: string)

  function Parse(s: string, open: string, close: string): (r: Option<seq<Piece>>)
    requires open != "" && close != ""
    ensures r.Some? ==> r.value != []
    decreases |s|
  {
    var outer := Cut(s, open);
    if outer.None? then Some([Text(s)])
    else
      var (name, rest) :- Cut(outer.value.1, close);
      var pieces :- Parse(rest, open, close);
      Some([Text(outer.value.0), Hole(name)] + pieces)
  }

  function Unparse(pieces: seq<Piece>, open: string, close: string): string {
    if pieces == [] then ""
    else
      var tail := Unparse(pieces[1..], open, close);
      match pieces[0]
      case Text(text) => text + tail
      case Hole(name) => open + (name + (close + tail))
  }

  /** The one reading of a template: each hole opens at the first opening mark and
      closes at the first closing mark after it. */
  ghost predicate WellSplit(pieces: seq<Piece>, open: string, close: string) {
    && pieces != [] && pieces[0].Text?
    && if |pieces| == 1 then Cut(pieces[0].text, open).None?
       else
         && pieces[1].Hole?
         && EndsAtFirst(pieces[0].text, open)
         && EndsAtFirst(pieces[1].name, close)
         && WellSplit(pieces[2..], open, close)
  }

  function Fill(pieces: seq<Piece>, lookup: string -> Option<string>): Option<string> {
    if pieces == [] then Some("")
    else
      var head :- if pieces[0].Text? then Some(pieces[0].text) else lookup(pieces[0].name);
      var tail :- Fill(pieces[1..], lookup);
      Some(head + tail)
  }

  /** Every hole replaced by its value; nothing when the text is unterminated or a hole is unbound. */
  function Substituted(s: string, open: string, close: string, lookup: string -> Option<string>): Option<string>
    requires open != "" && close != ""
  {
    var pieces :- Parse(s, open, close);
    Fill(pieces, lookup)
  }

  lemma SubstitutedText(s: string, open: string, close: string, lookup: string -> Option<string>)
    requires open != "" && close != "" && Cut(s, open).None?
    ensures Substituted(s, open, close, lookup) == Some(s)
  {
    assert Fill([Text(s)][1..], lookup) == Some("");
    assert s + "" == s;
  }

  lemma SubstitutedHole(s: string, open: string, close: string, lookup: string -> Option<string>, a: string,
      body: string)
    requires open != "" && close != "" && Cut(s, open) == Some((a, body))
    ensures Cut(body, close).None? ==> Substituted(s, open, close, lookup) == None
    ensures Cut(body, close).Some? ==>
      var (name, rest) := Cut(body, close).value;
      Substituted(s, open, close, lookup)
      == var value :- lookup(name); var tail :- Substituted(rest, open, close, lookup); Some(a + (value + tail))
  {
    if Cut(body, close).Some? {
      var (name, rest) := Cut(body, close).value;
      var parsed := Parse(rest, open, close);
      if parsed.Some? {
        FillTwo(a, name, parsed.value, lookup);
      }
    }
  }

  function Concat(parts: seq<string>): string {
    if parts == [] then "" else parts[0] + Concat(parts[1..])
  }

  /** One text per piece: literal text as it is, and for each hole what is looked up. */
  ghost predicate PartsOf(pieces: seq<Piece>, lookup: string -> Option<string>, parts: seq<string>) {
    && |parts| == |pieces|
    && forall i :: 0 <= i < |pieces| ==>
         if pieces[i].Text? then parts[i] == pieces[i].text else lookup(pieces[i].name) == Some(parts[i])
  }

  lemma {:induction false} FillIsConcat(pieces: seq<Piece>, lookup: string -> Option<string>, parts: seq<string>)
    requires PartsOf(pieces, lookup, parts)
    ensures Fill(pieces, lookup) == Some(Concat(parts))
    decreases |pieces|
  {
    if pieces != [] {
      assert forall i :: 0 <= i < |pieces[1..]| ==> pieces[1..][i] == pieces[i + 1] && parts[1..][i] == parts[i + 1];
      FillIsConcat(pieces[1..], lookup, parts[1..]);
    }
  }

  lemma {:induction false} FillHasParts(pieces: seq<Piece>, lookup: string -> Option<string>)
    returns (parts: seq<string>)
    requires Fill(pieces, lookup).Some?
    ensures PartsOf(pieces, lookup, parts) && Fill(pieces, lookup) == Some(Concat(parts))
    decreases |pieces|
  {
    if pieces == [] {
      parts := [];
    } else {
      var rest := FillHasParts(pieces[1..], lookup);
      var head := if pieces[0].Text? then pieces[0].text else lookup(pieces[0].name).value;
      parts := [head] + rest;
      assert parts[1..] == rest;
      assert forall i :: 0 < i < |pieces| ==> pieces[i] == pieces[1..][i - 1] && parts[i] == rest[i - 1];
    }
  }

  lemma FillTwo(a: string, name: string, pieces: seq<Piece>, lookup: string -> Option<string>)
    ensures Fill([Text(a), Hole(name)] + pieces, lookup)
         == var value :- lookup(name); var tail :- Fill(pieces, lookup); Some(a + (value + tail))
  {
    var all := [Text(a), Hole(name)] + pieces;
    assert all[1..] == [Hole(name)] + pieces;
    assert all[1..][1..] == pieces;
  }

  // One round of a substitution loop over s, with the loop's own indices.
  lemma NoHole(s: string, open: string, close: string, lookup: string -> Option<string>)
    requires open != "" && close != "" && Index(s, open) < 0
    ensures Substituted(s, open, close, lookup) == Some(s)
  {
    IndexIsCut(s, open);
    SubstitutedText(s, open, close, lookup);
  }

  lemma OpenHole(s: string, open: string, close: string, lookup: string -> Option<string>, i: nat)
    requires open != "" && close != "" && close[0] !in open
    requires i == Index(s, open) && Index(s[i..], close) < 0
    ensures Substituted(s, open, close, lookup) == None
  {
    hide *;
    IndexIsCut(s, open);
    OpenMark(s, open, i);
    CloseAfterOpen(s[i..], open, s[i + |open|..], close);
    SubstitutedHole(s, open, close, lookup, s[..i], s[i + |open|..]);
  }

  lemma OneHole(s: string, open: string, close: string, lookup: string -> Option<string>, i: nat, t: string, end: nat)
    requires open != "" && close != "" && close[0] !in open
    requires i == Index(s, open) && t == s[i..] && end == Index(t, close)
    ensures end >= |open|
    ensures Substituted(s, open, close, lookup)
         == var value :- lookup(t[|open|..end]);
            var tail :- Substituted(t[end + |close|..], open, close, lookup);
            Some(s[..i] + (value + tail))
  {
    hide *;
    IndexIsCut(s, open);
    OpenMark(s, open, i);
    CloseAfterOpen(t, open, s[i + |open|..], close);
    SubstitutedHole(s, open, close, lookup, s[..i], s[i + |open|..]);
  }

  lemma {:induction false} OpenMark(s: string, p: string, i: nat)
    requires i == Index(s, p)
    ensures s[i..] == p + s[i + |p|..]
  {
    if i == 0 {
      assert s == s[..|p|] + s[|p|..];
    } else {
      OpenMark(s[1..], p, i - 1);
      assert s[i..] == s[1..][i - 1..] && s[i + |p|..] == s[1..][i - 1 + |p|..];
    }
  }

  // Searching for the closing mark from the opening one or from just behind it is the same.
  lemma CloseAfterOpen(t: string, open: string, body: string, close: string)
    requires close != "" && close[0] !in open && t == open + body
    ensures Index(t, close) < 0 ==> Cut(body, close).None?
    ensures Index(t, close) >= 0 ==>
      Index(t, close) >= |open|
        && Cut(body, close) == Some((t[|open|..Index(t, close)], t[Index(t, close) + |close|..]))
  {
    hide Index, Cut;
    IndexIsCut(t, close);
    CutSkip(open, body, close);
    if Cut(body, close).Some? {
      var (x, y) := Cut(body, close).value;
      assert (open + x)[|open|..] == x;
    }
  }

  // ----- Parse is the inverse of Unparse -----

  lemma {:induction false} UnparseOfParse(s: string, open: string, close: string)
    requires open != "" && close != "" && Parse(s, open, close).Some?
    ensures var pieces := Parse(s, open, close).value;
      WellSplit(pieces, open, close) && Unparse(pieces, open, close) == s
    decreases |s|
  {
    hide Cut, EndsAtFirst;
    if Cut(s, open).None? {
      assert Unparse([Text(s)][1..], open, close) == "";
      assert s + "" == s;
    } else {
      var (a, body) := Cut(s, open).value;
      var (name, rest) := Cut(body, close).value;
      CutSound(s, open);
      CutSound(body, close);
      UnparseOfParse(rest, open, close);
      UnparseTwo(a, name, Parse(rest, open, close).value, open, close);
    }
  }

  lemma UnparseTwo(a: string, name: string, pieces: seq<Piece>, open: string, close: string)
    ensures var all := [Text(a), Hole(name)] + pieces;
      && all[2..] == pieces
      && Unparse(all, open, close) == a + (open + (name + (close + Unparse(pieces, open, close))))
  {
    var all := [Text(a), Hole(name)] + pieces;
    assert all[1..] == [Hole(name)] + pieces;
    assert all[1..][1..] == pieces;
  }

  lemma {:induction false} ParseOfUnparse(pieces: seq<Piece>, open: string, close: string)
    requires open != "" && close != "" && WellSplit(pieces, open, close)
    ensures Parse(Unparse(pieces, open, close), open, close) == Some(pieces)
    decreases |pieces|
  {
    hide Cut, EndsAtFirst;
    if |pieces| == 1 {
      assert Unparse(pieces[1..], open, close) == "";
      assert pieces[0].text + "" == pieces[0].text && pieces == [Text(pieces[0].text)];
    } else {
      var a, name, rest := pieces[0].text, pieces[1].name, pieces[2..];
      assert pieces == [Text(a), Hole(name)] + rest;
      UnparseTwo(a, name, rest, open, close);
      var tail := Unparse(rest, open, close);
      CutExtend(a, open, name + (close + tail));
      CutExtend(name, close, tail);
      ParseOfUnparse(rest, open, close);
    }
  }

  /** Main result: the pieces read from a text are the only well-split ones that print it. */
  lemma ParseExact(s: string, open: string, close: string, pieces: seq<Piece>)
    requires open != "" && close != ""
    ensures Parse(s, open, close) == Some(pieces) <==>
      WellSplit(pieces, open, close) && Unparse(pieces, open, close) == s
  {
    if Parse(s, open, close) == Some(pieces) {
      UnparseOfParse(s, open, close);
    }
    if WellSplit(pieces, open, close) && Unparse(pieces, open, close) == s {
      ParseOfUnparse(pieces, open, close);
    }
  }

  /** A text becomes another exactly when some well-split reading of it, and there is only one, has a
      text for every piece and these make up the other. */
  lemma SubstitutedExact(s: string, open: string, close: string, lookup: string -> Option<string>, out: string)
    requires open != "" && close != ""
    ensures Substituted(s, open, close, lookup) == Some(out) <==>
      exists pieces, parts ::
        && WellSplit(pieces, open, close) && Unparse(pieces, open, close) == s
        && PartsOf(pieces, lookup, parts) && Concat(parts) == out
  {
    hide WellSplit, Unparse, PartsOf, Concat, Fill, Parse;
    if Substituted(s, open, close, lookup) == Some(out) {
      var pieces := Parse(s, open, close).value;
      ParseExact(s, open, close, pieces);
      var parts := FillHasParts(pieces, lookup);
    }
    forall pieces, parts | WellSplit(pieces, open, close) && Unparse(pieces, open, close) == s
      && PartsOf(pieces, lookup, parts) && Concat(parts) == out
      ensures Substituted(s, open, close, lookup) == Some(out)
    {
      ParseExact(s, open, close, pieces);
      FillIsConcat(pieces, lookup, parts);
    }
  }

  // ----- {{var}}: values captured by setup steps -----

  predicate IsSpace(c: char) {
    || '\t' <= c <= '\r' || c == ' ' || c == '\U{0085}' || c == '\U{00A0}' || c == '\U{1680}'
    || '\U{2000}' <= c <= '\U{200A}' || c == '\U{2028}' || c == '\U{2029}' || c == '\U{202F}'
    || c == '\U{205F}' || c == '\U{3000}'
  }

  function TrimSpace(s: string): string {
    if s == "" then s
    else if IsSpace(s[0]) then TrimSpace(s[1..])
    else if IsSpace(s[|s| - 1]) then TrimSpace(s[..|s| - 1])
    else s
  }

  /** Trimming takes away exactly the spaces at both ends. */
  lemma {:induction false} TrimSpaceExact(s: string) returns (i: nat, j: nat)
    ensures i <= j <= |s| && TrimSpace(s) == s[i..j]
    ensures forall k :: 0 <= k < i || j <= k < |s| ==> IsSpace(s[k])
    ensures i < j ==> !IsSpace(s[i]) && !IsSpace(s[j - 1])
    decreases |s|
  {
    hide IsSpace;
    i, j := 0, |s|;
    assert s[..|s|] == s;
    if s != "" && IsSpace(s[0]) {
      i, j := TrimSpaceExact(s[1..]);
      assert s[1..][i..j] == s[i + 1..j + 1];
      assert forall k :: 0 < k < |s| ==> s[k] == s[1..][k - 1];
      i, j := i + 1, j + 1;
    } else if s != "" && IsSpace(s[|s| - 1]) {
      i, j := TrimSpaceExact(s[..|s| - 1]);
      assert s[..|s| - 1][i..j] == s[i..j];
    }
  }

  function Captured(vars: map<string, string>): string -> Option<string> {
    name => if TrimSpace(name) in vars then Some(vars[TrimSpace(name)]) else None
  }

  function Substitute(s: string, vars: map<string, string>): Option<string> {
    Substituted(s, "{{", "}}", Captured(vars))
  }

  /** One text per piece: literal text as it is, and for each hole the variable named in it. */
  ghost predicate VariableParts(pieces: seq<Piece>, vars: map<string, string>, parts: seq<string>) {
    && |parts| == |pieces|
    && forall i :: 0 <= i < |pieces| ==>
         if pieces[i].Text? then parts[i] == pieces[i].text
         else TrimSpace(pieces[i].name) in vars && parts[i] == vars[TrimSpace(pieces[i].name)]
  }

  /** The text with its holes filled: its one well-split reading, put together again with the value of
      the named variable for each hole. */
  ghost predicate Filled(s: string, vars: map<string, string>, out: string) {
    exists pieces, parts ::
      && WellSplit(pieces, "{{", "}}") && Unparse(pieces, "{{", "}}") == s
      && VariableParts(pieces, vars, parts) && Concat(parts) == out
  }

  lemma SubstituteExact(s: string, vars: map<string, string>, out: string)
    ensures Substitute(s, vars) == Some(out) <==> Filled(s, vars, out)
  {
    hide WellSplit, Unparse, Concat, Substituted;
    SubstitutedExact(s, "{{", "}}", Captured(vars), out);
    forall pieces, parts
      ensures PartsOf(pieces, Captured(vars), parts) <==> VariableParts(pieces, vars, parts)
    {
      hide TrimSpace;
    }
  }

  /** whole is what was written so far followed by what the remaining text yields. */
  ghost predicate Continues(whole: Option<string>, written: string, rest: Option<string>) {
    whole == var tail :- rest; Some(written + tail)
  }

  lemma Advance(whole: Option<string>, written: string, a: string, value: string, tail: Option<string>)
    requires Continues(whole, written, var t :- tail; Some(a + (value + t)))
    ensures Continues(whole, written + a + value, tail)
  {
    if tail.Some? {
      assert written + (a + (value + tail.value)) == (written + a + value) + tail.value;
    }
  }

  lemma Begin(whole: Option<string>)
    ensures Continues(whole, "", whole)
  {
    if whole.Some? {
      assert "" + whole.value == whole.value;
    }
  }

  method SubstituteText(text: string, vars: map<string, string>) returns (r: Option<string>)
    ensures r == Substitute(text, vars)
  {
    hide Substituted, Index;
    ghost var lookup := Captured(vars);
    if Index(text, "{{") < 0 {
      NoHole(text, "{{", "}}", lookup);
      return Some(text);
    }
    var s, b := text, "";
    Begin(Substitute(text, vars));
    while true
      invariant Continues(Substitute(text, vars), b, Substitute(s, vars))
      decreases |s|
    {
      var open := Index(s, "{{");
      if open < 0 {
        NoHole(s, "{{", "}}", lookup);
        return Some(b + s);
      }
      var end := Index(s[open..], "}}");
      if end < 0 {
        OpenHole(s, "{{", "}}", lookup, open);
        return None;
      }
      OneHole(s, "{{", "}}", lookup, open, s[open..], end);
      assert s[open..][2..end] == s[open + 2..open + end] && s[open..][end + 2..] == s[open + end + 2..];
      end := end + open;
      var name := TrimSpace(s[open + 2..end]);
      if name !in vars {
        return None;
      }
      Advance(Substitute(text, vars), b, s[..open], vars[name], Substitute(s[end + 2..], vars));
      b := b + s[..open] + vars[name];
      s := s[end + 2..];
    }
  }

  // ----- ${VAR}: environment references -----

  /** An unset variable reads as the empty string; empty names and values are errors. */
  function Environment(env: map<string, string>): string -> Option<string> {
    name => if name != "" && name in env && env[name] != "" then Some(env[name]) else None
  }

  function ExpandReferences(s: string, env: map<string, string>): Option<string> {
    Substituted(s, "${", "}", Environment(env))
  }

  /** Every reference is replaced by the value of exactly the variable named, which must not be empty. */
  lemma ExpandExact(s: string, env: map<string, string>, out: string)
    ensures ExpandReferences(s, env) == Some(out) <==>
      exists pieces, parts ::
        && WellSplit(pieces, "${", "}") && Unparse(pieces, "${", "}") == s
        && EnvironmentParts(pieces, env, parts) && Concat(parts) == out
  {
    hide WellSplit, Unparse, Concat, Substituted;
    SubstitutedExact(s, "${", "}", Environment(env), out);
    forall pieces, parts
      ensures PartsOf(pieces, Environment(env), parts) <==> EnvironmentParts(pieces, env, parts)
    {
    }
  }

  ghost predicate EnvironmentParts(pieces: seq<Piece>, env: map<string, string>, parts: seq<string>) {
    && |parts| == |pieces|
    && forall i :: 0 <= i < |pieces| ==>
         if pieces[i].Text? then parts[i] == pieces[i].text
         else
           var name := pieces[i].name;
           name != "" && name in env && env[name] != "" && parts[i] == env[name]
  }

  method Expand(text: string, env: map<string, string>) returns (r: Option<string>)
    ensures r == ExpandReferences(text, env)
  {
    hide Substituted, Index;
    var s, b := text, "";
    Begin(ExpandReferences(text, env));
    while true
      invariant Continues(ExpandReferences(text, env), b, ExpandReferences(s, env))
      decreases |s|
    {
      var open := Index(s, "${");
      if open < 0 {
        NoHole(s, "${", "}", Environment(env));
        return Some(b + s);
      }
      var end := Index(s[open..], "}");
      if end < 0 {
        OpenHole(s, "${", "}", Environment(env), open);
        return None;
      }
      OneHole(s, "${", "}", Environment(env), open, s[open..], end);
      assert s[open..][2..end] == s[open + 2..open + end] && s[open..][end + 1..] == s[open + end + 1..];
      end := end + open;
      var name := s[open + 2..end];
      if name == "" {
        return None;
      }
      var value := if name in env then env[name] else "";
      if value == "" {
        return None;
      }
      Advance(ExpandReferences(text, env), b, s[..open], value, ExpandReferences(s[end + 1..], env));
      b := b + s[..open] + value;
      s := s[end + 1..];
    }
  }

  // ----- {param}: policy paths, stepping over {{var}} -----

  datatype PathPiece = Literal(text: string) | Param(name: string) | Var(name: string)

  /** Literal text runs to the next brace; {{ opens a variable, a single { a parameter. */
  function ParsePath(s: string): Option<seq<PathPiece>>
    decreases |s|
  {
    var outer := Cut(s, "{");
    if outer.None? then Some([Literal(s)])
    else
      var (a, body) := outer.value;
      if body != "" && body[0] == '{' then
        var (name, rest) :- Cut(body[1..], "}}");
        var pieces :- ParsePath(rest);
        Some([Literal(a), Var(name)] + pieces)
      else
        var (name, rest) :- Cut(body, "}");
        var pieces :- ParsePath(rest);
        Some([Literal(a), Param(name)] + pieces)
  }

  /** Parameters replaced, variable references kept as they are written. */
  function PathText(piece: PathPiece, params: map<string, string>): Option<string> {
    match piece
    case Literal(text) => Some(text)
    case Param(name) => if name in params then Some(params[name]) else None
    case Var(name) => Some("{{" + (name + "}}"))
  }

  function FillPath(pieces: seq<PathPiece>, params: map<string, string>): Option<string> {
    if pieces == [] then Some("")
    else
      var head :- PathText(pieces[0], params);
      var tail :- FillPath(pieces[1..], params);
      Some(head + tail)
  }

  function PathFilled(s: string, params: map<string, string>): Option<string> {
    var pieces :- ParsePath(s);
    FillPath(pieces, params)
  }

  lemma FillPathTwo(a: string, hole: PathPiece, pieces: seq<PathPiece>, params: map<string, string>)
    ensures FillPath([Literal(a), hole] + pieces, params)
         == var value :- PathText(hole, params); var tail :- FillPath(pieces, params); Some(a + (value + tail))
  {
    var all := [Literal(a), hole] + pieces;
    assert all[1..] == [hole] + pieces;
    assert all[1..][1..] == pieces;
  }

  lemma PathFilledText(s: string, params: map<string, string>)
    requires Cut(s, "{").None?
    ensures PathFilled(s, params) == Some(s)
  {
    assert FillPath([Literal(s)][1..], params) == Some("");
    assert s + "" == s;
  }

  lemma PathFilledHole(s: string, params: map<string, string>, a: string, body: string)
    requires Cut(s, "{") == Some((a, body))
    ensures var double := body != "" && body[0] == '{';
      var inner := if double then Cut(body[1..], "}}") else Cut(body, "}");
      if inner.None? then PathFilled(s, params) == None
      else
        var (name, rest) := inner.value;
        PathFilled(s, params)
        == var value :- PathText(if double then Var(name) else Param(name), params);
           var tail :- PathFilled(rest, params);
           Some(a + (value + tail))
  {
    var double := body != "" && body[0] == '{';
    var inner := if double then Cut(body[1..], "}}") else Cut(body, "}");
    if inner.Some? {
      var (name, rest) := inner.value;
      var parsed := ParsePath(rest);
      if parsed.Some? {
        FillPathTwo(a, if double then Var(name) else Param(name), parsed.value, params);
      }
    }
  }

  /** What the first brace of a path opens decides: a variable reference is kept as it is written, a
      parameter is replaced by its value, the rest is filled in the same way, and without a brace there
      is nothing to fill. */
  lemma PathExact(s: string, params: map<string, string>)
    ensures Cut(s, "{").None? ==> PathFilled(s, params) == Some(s)
    ensures Cut(s, "{").Some? ==>
      var (a, body) := Cut(s, "{").value;
      var double := body != "" && body[0] == '{';
      var inner := if double then Cut(body[1..], "}}") else Cut(body, "}");
      if inner.None? then PathFilled(s, params).None?
      else
        var (name, rest) := inner.value;
        var tail := PathFilled(rest, params);
        if tail.None? || (!double && name !in params) then PathFilled(s, params).None?
        else PathFilled(s, params) == Some(a + ((if double then "{{" + (name + "}}") else params[name]) + tail.value))
  {
    hide PathFilled;
    if Cut(s, "{").None? {
      PathFilledText(s, params);
    } else {
      var (a, body) := Cut(s, "{").value;
      PathFilledHole(s, params, a, body);
    }
  }

  // One round of the path loop, with the loop's own indices.
  lemma PathNoBrace(s: string, params: map<string, string>)
    requires Index(s, "{") < 0
    ensures PathFilled(s, params) == Some(s)
  {
    IndexIsCut(s, "{");
    PathFilledText(s, params);
  }

  lemma PathOpen(s: string, params: map<string, string>, i: nat)
    requires i == Index(s, "{") && i < |s|
    requires Index(s[i..], if i + 1 < |s| && s[i + 1] == '{' then "}}" else "}") < 0
    ensures PathFilled(s, params) == None
  {
    hide *;
    var body := s[i + 1..];
    IndexIsCut(s, "{");
    OpenMark(s, "{", i);
    PathFilledHole(s, params, s[..i], body);
    if i + 1 < |s| && s[i + 1] == '{' {
      DoubleOpen(body);
      CloseAfterOpen(s[i..], "{{", body[1..], "}}");
    } else {
      CloseAfterOpen(s[i..], "{", body, "}");
    }
  }

  lemma DoubleOpen(body: string)
    requires body != "" && body[0] == '{'
    ensures "{" + body == "{{" + body[1..]
  {
  }

  lemma PathParam(s: string, params: map<string, string>, i: nat, t: string, end: nat)
    requires i == Index(s, "{") && !(i + 1 < |s| && s[i + 1] == '{') && t == s[i..] && end == Index(t, "}")
    ensures 1 <= end
    ensures PathFilled(s, params)
         == var value :- PathText(Param(t[1..end]), params);
            var tail :- PathFilled(t[end + 1..], params);
            Some(s[..i] + (value + tail))
  {
    hide *;
    IndexIsCut(s, "{");
    OpenMark(s, "{", i);
    CloseAfterOpen(t, "{", s[i + 1..], "}");
    PathFilledHole(s, params, s[..i], s[i + 1..]);
  }

  lemma PathVarCut(s: string, i: nat, t: string, close: nat)
    requires i == Index(s, "{") && i + 1 < |s| && s[i + 1] == '{' && t == s[i..] && close == Index(t, "}}")
    ensures Cut(s, "{") == Some((s[..i], s[i + 1..])) && 2 <= close
    ensures Cut(s[i + 1..][1..], "}}") == Some((t[2..close], t[close + 2..]))
    ensures t == "{{" + (t[2..close] + ("}}" + t[close + 2..]))
  {
    hide *;
    var body := s[i + 1..];
    IndexIsCut(s, "{");
    OpenMark(s, "{", i);
    DoubleOpen(body);
    CloseAfterOpen(t, "{{", body[1..], "}}");
    CutSound(body[1..], "}}");
  }

  lemma PathVar(s: string, params: map<string, string>, i: nat, t: string, close: nat)
    requires i == Index(s, "{") && i + 1 < |s| && s[i + 1] == '{' && t == s[i..] && close == Index(t, "}}")
    ensures PathFilled(s, params) == var tail :- PathFilled(t[close + 2..], params);
      Some(s[..i] + t[..close + 2] + ("" + tail))
  {
    hide Index, Cut, ParsePath, FillPath, PathFilled;
    PathVarCut(s, i, t, close);
    var name, rest := t[2..close], t[close + 2..];
    PathFilledHole(s, params, s[..i], s[i + 1..]);
    KeptSpan(t, name, rest, s[..i], PathFilled(rest, params));
  }

  lemma KeptSpan(t: string, name: string, rest: string, a: string, tail: Option<string>)
    requires t == "{{" + (name + ("}}" + rest))
    ensures |t| == |name| + 4 + |rest|
    ensures tail.Some? ==> a + (("{{" + (name + "}}")) + tail.value) == a + t[..|name| + 4] + ("" + tail.value)
  {
    assert t[..|name| + 4] == "{{" + (name + "}}");
  }

  method SubstitutePath(text: string, params: map<string, string>) returns (r: Option<string>)
    ensures r == PathFilled(text, params)
  {
    hide PathFilled, Index;
    var path, done := text, "";
    Begin(PathFilled(text, params));
    while true
      invariant Continues(PathFilled(text, params), done, PathFilled(path, params))
      decreases |path|
    {
      var open := Index(path, "{");
      if open < 0 {
        PathNoBrace(path, params);
        return Some(done + path);
      }
      if open + 1 < |path| && path[open + 1] == '{' {
        var close := Index(path[open..], "}}");
        if close < 0 {
          PathOpen(path, params, open);
          return None;
        }
        PathVar(path, params, open, path[open..], close);
        assert path[open..][close + 2..] == path[open + close + 2..];
        assert path[..open] + path[open..][..close + 2] == path[..open + close + 2];
        close := close + open + 2;
        Advance(PathFilled(text, params), done, path[..close], "", PathFilled(path[close..], params));
        assert done + path[..close] + "" == done + path[..close];
        done := done + path[..close];
        path := path[close..];
      } else {
        var end := Index(path[open..], "}");
        if end < 0 {
          PathOpen(path, params, open);
          return None;
        }
        PathParam(path, params, open, path[open..], end);
        assert path[open..][1..end] == path[open + 1..open + end] && path[open..][end + 1..] == path[open + end + 1..];
        end := end + open;
        var name := path[open + 1..end];
        if name !in params {
          return None;
        }
        Advance(PathFilled(text, params), done, path[..open], params[name], PathFilled(path[end + 1..], params));
        done := done + path[..open] + params[name];
        path := path[end + 1..];
      }
    }
  }
}
