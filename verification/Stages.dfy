/** Policy paths are filled in two stages: parameters when the policy is compiled, captured variables
    when it runs. Exactly when that equals filling both at once. */
module Stages {
  import opened Basics
  import opened Substitution

  /** Both kinds of hole filled at once from the parsed path. */
  function FillBoth(pieces: seq<PathPiece>, params: map<string, string>, vars: map<string, string>): Option<string> {
    if pieces == [] then Some("")
    else
      var head :- if pieces[0].Var? then Captured(vars)(pieces[0].name) else PathText(pieces[0], params);
      var tail :- FillBoth(pieces[1..], params, vars);
      Some(head + tail)
  }

  /** What ParsePath yields: text without an opening brace, and variables that end at the first }}. */
  ghost predicate CleanPiece(piece: PathPiece) {
    match piece
    case Literal(text) => '{' !in text
    case Param(_) => true
    case Var(name) => EndsAtFirst(name, "}}")
  }

  ghost predicate CleanPieces(pieces: seq<PathPiece>) {
    forall i :: 0 <= i < |pieces| ==> CleanPiece(pieces[i])
  }

  lemma {:induction false} CutAvoids(s: string, p: string)
    requires |p| == 1
    ensures Cut(s, p).None? ==> p[0] !in s
    ensures Cut(s, p).Some? ==> p[0] !in Cut(s, p).value.0
  {
    if s != "" {
      if s[0] == p[0] {
        assert s[..1] == p;
      } else {
        assert s[..1][0] != p[0];
        CutAvoids(s[1..], p);
        assert s == [s[0]] + s[1..];
      }
    }
  }

  lemma {:induction false} ParsePathClean(s: string)
    requires ParsePath(s).Some?
    ensures CleanPieces(ParsePath(s).value)
    decreases |s|
  {
    hide Cut, EndsAtFirst;
    CutAvoids(s, "{");
    if Cut(s, "{").Some? {
      var body := Cut(s, "{").value.1;
      if body != "" && body[0] == '{' {
        CutSound(body[1..], "}}");
        ParsePathClean(Cut(body[1..], "}}").value.1);
      } else {
        ParsePathClean(Cut(body, "}").value.1);
      }
    }
  }

  lemma SubstituteHole(name: string, s: string, vars: map<string, string>)
    requires EndsAtFirst(name, "}}")
    ensures Substitute("{{" + (name + ("}}" + s)), vars)
         == var value :- Captured(vars)(name); var rest :- Substitute(s, vars); Some(value + rest)
  {
    hide Substituted;
    var body := name + ("}}" + s);
    var t := "{{" + body;
    assert t[..2] == "{{" && t[2..] == body;
    CutExtend(name, "}}", s);
    SubstitutedHole(t, "{{", "}}", Captured(vars), "", body);
    var value, rest := Captured(vars)(name), Substitute(s, vars);
    if value.Some? && rest.Some? {
      assert "" + (value.value + rest.value) == value.value + rest.value;
    }
  }

  // ----- The filled path as a template -----

  /** Text and bound values run together, variables as holes. */
  function Merge(pieces: seq<PathPiece>, params: map<string, string>, text: string): seq<Piece> {
    if pieces == [] then [Text(text)]
    else if pieces[0].Var? then [Text(text), Hole(pieces[0].name)] + Merge(pieces[1..], params, "")
    else
      var value := PathText(pieces[0], params);
      Merge(pieces[1..], params, text + if value.Some? then value.value else "")
  }

  ghost predicate Alternates(pieces: seq<Piece>) {
    && pieces != [] && pieces[0].Text?
    && (|pieces| > 1 ==> pieces[1].Hole? && EndsAtFirst(pieces[1].name, "}}") && Alternates(pieces[2..]))
  }

  lemma {:induction false} MergeAlternates(pieces: seq<PathPiece>, params: map<string, string>, text: string)
    requires CleanPieces(pieces)
    ensures Alternates(Merge(pieces, params, text))
    decreases |pieces|
  {
    hide EndsAtFirst;
    if pieces != [] {
      assert CleanPiece(pieces[0]) && CleanPieces(pieces[1..]);
      if pieces[0].Var? {
        MergeAlternates(pieces[1..], params, "");
        var all := Merge(pieces, params, text);
        assert all[2..] == Merge(pieces[1..], params, "");
      } else {
        var value := PathText(pieces[0], params);
        MergeAlternates(pieces[1..], params, text + if value.Some? then value.value else "");
      }
    }
  }

  lemma {:induction false} MergePrints(pieces: seq<PathPiece>, params: map<string, string>, text: string)
    requires FillPath(pieces, params).Some?
    ensures Unparse(Merge(pieces, params, text), "{{", "}}") == text + FillPath(pieces, params).value
    decreases |pieces|
  {
    hide Unparse;
    if pieces == [] {
      TextPrints(text);
    } else {
      var head, tail := PathText(pieces[0], params).value, FillPath(pieces[1..], params).value;
      if pieces[0].Var? {
        var rest := Merge(pieces[1..], params, "");
        MergePrints(pieces[1..], params, "");
        UnparseTwo(text, pieces[0].name, rest, "{{", "}}");
        HolePrints(text, pieces[0].name, tail);
      } else {
        MergePrints(pieces[1..], params, text + head);
        Associates(text, head, tail);
      }
    }
  }

  lemma TextPrints(text: string)
    ensures Unparse([Text(text)], "{{", "}}") == text + ""
  {
    assert [Text(text)][1..] == [] && Unparse([], "{{", "}}") == "";
  }

  lemma HolePrints(text: string, name: string, tail: string)
    ensures text + ("{{" + (name + ("}}" + ("" + tail)))) == text + (("{{" + (name + "}}")) + tail)
  {
    assert "" + tail == tail;
    assert "{{" + (name + ("}}" + tail)) == ("{{" + (name + "}}")) + tail;
  }

  lemma {:induction false} MergeFills(pieces: seq<PathPiece>, params: map<string, string>, vars: map<string, string>,
      text: string)
    requires FillPath(pieces, params).Some?
    ensures Fill(Merge(pieces, params, text), Captured(vars))
         == var tail :- FillBoth(pieces, params, vars); Some(text + tail)
    decreases |pieces|
  {
    hide Captured;
    if pieces == [] {
      assert Fill([Text(text)][1..], Captured(vars)) == Some("");
    } else {
      var tail := FillBoth(pieces[1..], params, vars);
      if pieces[0].Var? {
        var name, rest := pieces[0].name, Merge(pieces[1..], params, "");
        MergeFills(pieces[1..], params, vars, "");
        FillTwo(text, name, rest, Captured(vars));
        assert tail.Some? ==> "" + tail.value == tail.value;
      } else {
        var value := PathText(pieces[0], params).value;
        MergeFills(pieces[1..], params, vars, text + value);
        assert tail.Some? ==> (text + value) + tail.value == text + (value + tail.value);
      }
    }
  }

  // ----- A template read differently fills differently -----

  /** Every hole of the template has the value x, and there are no other values. */
  ghost predicate AllMarked(pieces: seq<Piece>, vars: map<string, string>) {
    && (forall n :: n in vars ==> vars[n] == "x")
    && forall i :: 0 <= i < |pieces| && pieces[i].Hole? ==> Captured(vars)(pieces[i].name) == Some("x")
  }

  function Marks(pieces: seq<Piece>): map<string, string> {
    map i | 0 <= i < |pieces| && pieces[i].Hole? :: TrimSpace(pieces[i].name) := "x"
  }

  lemma MarksAll(pieces: seq<Piece>)
    ensures AllMarked(pieces, Marks(pieces))
  {
    hide TrimSpace;
  }

  /** An opening mark found too early leaves an x where the template has a brace. */
  lemma EarlyHole(s: string, a: string, body: string, vars: map<string, string>, filled: string)
    requires Cut(s, "{{") == Some((a, body)) && |a| < |filled| && filled[|a|] == '{'
    requires forall n :: n in vars ==> vars[n] == "x"
    ensures Substitute(s, vars) != Some(filled)
  {
    hide Cut, Substituted, TrimSpace;
    SubstitutedHole(s, "{{", "}}", Captured(vars), a, body);
    var r := Substitute(s, vars);
    if r.Some? {
      assert r.value[|a|] == 'x';
    }
  }

  lemma {:induction false} MisreadDiffers(pieces: seq<Piece>, vars: map<string, string>)
    requires Alternates(pieces) && AllMarked(pieces, vars) && !WellSplit(pieces, "{{", "}}")
    ensures Fill(pieces, Captured(vars)).Some?
    ensures Substitute(Unparse(pieces, "{{", "}}"), vars) != Fill(pieces, Captured(vars))
    decreases |pieces|
  {
    hide Cut, Substituted, TrimSpace;
    MarkedFills(pieces, vars);
    var t := pieces[0].text;
    if |pieces| == 1 {
      LastText(pieces, vars);
    } else {
      var h, rest := pieces[1].name, pieces[2..];
      assert pieces == [Text(t), Hole(h)] + rest;
      FillTwo(t, h, rest, Captured(vars));
      UnparseTwo(t, h, rest, "{{", "}}");
      var tail := h + ("}}" + Unparse(rest, "{{", "}}"));
      assert Captured(vars)(pieces[1].name) == Some("x");
      if EndsAtFirst(t, "{{") {
        assert AllMarked(rest, vars) by { RestMarked(pieces, vars); }
        MisreadDiffers(rest, vars);
        CutExtend(t, "{{", tail);
        CutExtend(h, "}}", Unparse(rest, "{{", "}}"));
        SubstitutedHole(t + ("{{" + tail), "{{", "}}", Captured(vars), t, tail);
        SameTail(t, Substitute(Unparse(rest, "{{", "}}"), vars), Fill(rest, Captured(vars)));
      } else {
        var a, b := EarlyCut(t, tail);
        EarlyHole(t + ("{{" + tail), a, b, vars, Fill(pieces, Captured(vars)).value);
      }
    }
  }

  lemma SameTail(t: string, r: Option<string>, s: Option<string>)
    requires r != s && s.Some?
    ensures (var tail :- r; Some(t + ("x" + tail))) != (var tail :- s; Some(t + ("x" + tail)))
  {
    if r.Some? {
      var u, v := t + ("x" + r.value), t + ("x" + s.value);
      assert u[|t| + 1..] == r.value && v[|t| + 1..] == s.value;
    }
  }

  lemma RestMarked(pieces: seq<Piece>, vars: map<string, string>)
    requires AllMarked(pieces, vars) && |pieces| > 1
    ensures AllMarked(pieces[2..], vars)
  {
    hide TrimSpace, Captured;
    assert forall i :: 0 <= i < |pieces[2..]| ==> pieces[2..][i] == pieces[i + 2];
  }

  lemma {:induction false} MarkedFills(pieces: seq<Piece>, vars: map<string, string>)
    requires AllMarked(pieces, vars)
    ensures Fill(pieces, Captured(vars)).Some?
    decreases |pieces|
  {
    hide TrimSpace, Captured;
    if pieces != [] {
      assert forall i :: 0 <= i < |pieces[1..]| ==> pieces[1..][i] == pieces[i + 1];
      MarkedFills(pieces[1..], vars);
      assert pieces[0].Hole? ==> Captured(vars)(pieces[0].name) == Some("x");
    }
  }

  lemma LastText(pieces: seq<Piece>, vars: map<string, string>)
    requires |pieces| == 1 && pieces[0].Text? && AllMarked(pieces, vars) && Cut(pieces[0].text, "{{").Some?
    ensures Fill(pieces, Captured(vars)) == Some(pieces[0].text)
    ensures Substitute(Unparse(pieces, "{{", "}}"), vars) != Some(pieces[0].text)
  {
    hide Cut, Substituted, TrimSpace;
    var t := pieces[0].text;
    assert pieces[1..] == [] && t + "" == t;
    OneText(t, Captured(vars));
    assert pieces == [Text(t)];
    assert Unparse(pieces, "{{", "}}") == t && Fill(pieces, Captured(vars)) == Some(t);
    CutSound(t, "{{");
    var (a, body) := Cut(t, "{{").value;
    EarlyHole(t, a, body, vars, t);
  }

  lemma OneText(t: string, lookup: string -> Option<string>)
    ensures Fill([Text(t)], lookup) == Some(t)
  {
    assert Fill([Text(t)][1..], lookup) == Some("");
    assert t + "" == t;
  }

  lemma EarlyCut(t: string, tail: string) returns (a: string, b: string)
    requires !EndsAtFirst(t, "{{")
    ensures |a| < |t| && t[|a|] == '{' && Cut(t + ("{{" + tail), "{{") == Some((a, b))
  {
    var s := t + "{{";
    CutReaches(t, "{{");
    CutSound(s, "{{");
    var (x, y) := Cut(s, "{{").value;
    assert s == x + ("{{" + y);
    assert s[..|x|] == x && s[..|t|] == t && |y| == |t| - |x|;
    assert s[|x|] == '{';
    a, b := x, y + tail;
    assert t + ("{{" + tail) == s + tail;
    assert s + tail == x + ("{{" + (y + tail));
    CutExtend(x, "{{", y + tail);
  }

  /** What is appended at the end is found there at the latest. */
  lemma {:induction false} CutReaches(t: string, p: string)
    ensures Cut(t + p, p).Some? && |Cut(t + p, p).value.0| <= |t|
  {
    var s := t + p;
    if t == "" {
      assert s == p;
    } else {
      assert s[1..] == t[1..] + p;
      CutReaches(t[1..], p);
    }
  }

  // ----- The two stages compose -----

  /** In the filled path no variable reference opens except where the path wrote one. */
  ghost predicate ReadAsWritten(path: string, params: map<string, string>) {
    ParsePath(path).Some? && WellSplit(Merge(ParsePath(path).value, params, ""), "{{", "}}")
  }

  /** Main result, the exact condition: binding the path first and the captured variables later gives
      the text of filling both kinds of hole at once, for every captured value, iff the filled path
      opens no other reference than the path wrote. */
  lemma StagesComposeIff(path: string, params: map<string, string>)
    requires PathFilled(path, params).Some?
    ensures (forall vars ::
               Substitute(PathFilled(path, params).value, vars) == FillBoth(ParsePath(path).value, params, vars))
      <==> ReadAsWritten(path, params)
  {
    hide Substitute, EndsAtFirst, Cut, FillBoth, TrimSpace, WellSplit, Merge;
    var pieces, filled := ParsePath(path).value, PathFilled(path, params).value;
    var merged := Merge(pieces, params, "");
    ParsePathClean(path);
    MergeAlternates(pieces, params, "");
    MergePrints(pieces, params, "");
    assert "" + filled == filled;
    forall vars
      ensures Fill(merged, Captured(vars)) == FillBoth(pieces, params, vars)
    {
      MergeFills(pieces, params, vars, "");
      assert FillBoth(pieces, params, vars).Some? ==>
        "" + FillBoth(pieces, params, vars).value == FillBoth(pieces, params, vars).value;
    }
    if ReadAsWritten(path, params) {
      forall vars
        ensures Substitute(filled, vars) == FillBoth(pieces, params, vars)
      {
        ReadExactly(filled, merged, vars);
      }
    } else {
      MarksAll(merged);
      MisreadDiffers(merged, Marks(merged));
    }
  }

  lemma ReadExactly(filled: string, merged: seq<Piece>, vars: map<string, string>)
    requires WellSplit(merged, "{{", "}}") && Unparse(merged, "{{", "}}") == filled
    ensures Substitute(filled, vars) == Fill(merged, Captured(vars))
  {
    ParseExact(filled, "{{", "}}", merged);
  }

  /** Values without an opening brace always meet it; only those the path uses matter. */
  lemma StagesCompose(path: string, params: map<string, string>)
    requires PathFilled(path, params).Some?
    requires forall i :: 0 <= i < |ParsePath(path).value| && ParsePath(path).value[i].Param? ==>
      var name := ParsePath(path).value[i].name; name in params ==> '{' !in params[name]
    ensures ReadAsWritten(path, params)
  {
    ParsePathClean(path);
    BoundNames(ParsePath(path).value, params);
    MergedIsSplit(ParsePath(path).value, params, "");
  }

  lemma {:induction false} BoundNames(pieces: seq<PathPiece>, params: map<string, string>)
    requires FillPath(pieces, params).Some?
    ensures forall i :: 0 <= i < |pieces| && pieces[i].Param? ==> pieces[i].name in params
  {
    if pieces != [] {
      BoundNames(pieces[1..], params);
      assert forall i :: 0 < i < |pieces| ==> pieces[i] == pieces[1..][i - 1];
    }
  }

  lemma {:induction false} MergedIsSplit(pieces: seq<PathPiece>, params: map<string, string>, text: string)
    requires CleanPieces(pieces) && FillPath(pieces, params).Some? && '{' !in text
    requires forall i :: 0 <= i < |pieces| && pieces[i].Param? ==>
      pieces[i].name in params && '{' !in params[pieces[i].name]
    ensures WellSplit(Merge(pieces, params, text), "{{", "}}")
    decreases |pieces|
  {
    hide Cut, EndsAtFirst;
    if pieces == [] {
      NoBraceNoHole(text);
    } else {
      assert CleanPiece(pieces[0]) && CleanPieces(pieces[1..]);
      assert forall i :: 0 <= i < |pieces[1..]| ==> pieces[1..][i] == pieces[i + 1];
      if pieces[0].Var? {
        MergedIsSplit(pieces[1..], params, "");
        NoBraceNoHole(text);
        var all := Merge(pieces, params, text);
        assert all[2..] == Merge(pieces[1..], params, "");
      } else {
        MergedIsSplit(pieces[1..], params, text + PathText(pieces[0], params).value);
      }
    }
  }

  lemma NoBraceNoHole(text: string)
    requires '{' !in text
    ensures Cut(text, "{{").None? && EndsAtFirst(text, "{{")
  {
    CutSkip(text, "", "{{");
    assert text + "" == text;
    CutSkip(text, "{{", "{{");
    assert Cut("{{", "{{") == Some(("", "")) by { assert "{{"[..2] == "{{" && "{{"[2..] == ""; }
    assert text + "" == text;
  }

  lemma EmptyText(vars: map<string, string>)
    ensures Substitute("", vars) == Some("")
  {
    SubstitutedText("", "{{", "}}", Captured(vars));
  }

  /** A case that fails it: a bound value is read again as a variable reference. */
  lemma BracesAreRescanned()
    ensures exists path, params, vars ::
      && PathFilled(path, params).Some?
      && Substitute(PathFilled(path, params).value, vars) != FillBoth(ParsePath(path).value, params, vars)
  {
    hide Substitute, Cut, ParsePath;
    var path, params, vars := "{p}", map["p" := "{{v}}"], map["v" := "x"];
    var pieces := [Literal(""), Param("p"), Literal("")];
    RescannedPath();
    assert pieces[1..] == [Param("p"), Literal("")] && pieces[1..][1..] == [Literal("")];
    assert [Literal("")][1..] == [];
    assert FillPath([Literal("")], params) == Some("" + "") && FillBoth([Literal("")], params, vars) == Some("" + "");
    assert "" + ("{{v}}" + "") == "{{v}}";
    assert FillPath(pieces, params) == Some("{{v}}") && FillBoth(pieces, params, vars) == Some("{{v}}");
    RescannedValue(vars);
    assert PathFilled(path, params) == Some("{{v}}") && ParsePath(path) == Some(pieces);
    assert Substitute(PathFilled(path, params).value, vars) != FillBoth(ParsePath(path).value, params, vars);
  }

  lemma RescannedPath()
    ensures ParsePath("{p}") == Some([Literal(""), Param("p"), Literal("")])
  {
    assert Cut("{p}", "{") == Some(("", "p}"));
    assert "p}"[..1] == "p" && "p}"[1..] == "}" && ['p'] + "" == "p";
    assert Cut("}", "}") == Some(("", ""));
    assert Cut("p}", "}") == Some(("p", ""));
    assert Cut("", "{").None?;
    assert ParsePath("") == Some([Literal("")]);
    assert [Literal(""), Param("p")] + [Literal("")] == [Literal(""), Param("p"), Literal("")];
  }

  lemma RescannedValue(vars: map<string, string>)
    requires vars == map["v" := "x"]
    ensures Substitute("{{v}}", vars) == Some("x")
  {
    hide Substitute;
    assert "v}}"[..2] == "v}" && "v}}"[1..] == "}}" && ['v'] + "" == "v" && "v" + "}}" == "v}}";
    assert Cut("}}", "}}") == Some(("", ""));
    assert EndsAtFirst("v", "}}");
    SubstituteHole("v", "", vars);
    EmptyText(vars);
    assert "{{" + ("v" + ("}}" + "")) == "{{v}}";
    assert TrimSpace("v") == "v" && Captured(vars)("v") == Some("x");
    assert "x" + "" == "x";
  }
}
