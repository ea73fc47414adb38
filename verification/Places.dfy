/** Profiles and field lookup, told by places in a value: every path of member names and element positions
    that leads to a part of it. */
module Places {
  import opened Basics
  import opened Json
  import Pointer
  import opened Sorting
  import opened Profiles
  import Fields

  // ----- Names in byte order -----

  ghost predicate FirstDifference(a: string, b: string, i: nat) {
    i < |a| && i < |b| && a[..i] == b[..i] && a[i] < b[i]
  }

  /** A name comes before another exactly when that one continues it, or when the first character in which they
      differ is smaller. */
  lemma {:induction false} LessExact(a: string, b: string)
    ensures Less(a, b) <==> (a != b && a <= b) || exists i: nat :: FirstDifference(a, b, i)
  {
    if a != "" && b != "" && a[0] == b[0] {
      LessExact(a[1..], b[1..]);
      assert a == [a[0]] + a[1..] && b == [b[0]] + b[1..];
      assert a <= b <==> a[1..] <= b[1..];
      forall i: nat | FirstDifference(a[1..], b[1..], i)
        ensures FirstDifference(a, b, i + 1)
      {
        assert a[..i + 1] == [a[0]] + a[1..][..i] && b[..i + 1] == [b[0]] + b[1..][..i];
      }
      forall i: nat | FirstDifference(a, b, i)
        ensures i > 0 && FirstDifference(a[1..], b[1..], i - 1)
      {
        assert a[1..][..i - 1] == a[..i][1..] && b[1..][..i - 1] == b[..i][1..];
      }
    } else if a != "" && b != "" {
      forall i: nat | FirstDifference(a, b, i)
        ensures i == 0
      {
        if i > 0 {
          SameBefore(a, b, i);
        }
      }
      assert a[0] < b[0] ==> FirstDifference(a, b, 0);
    }
  }

  lemma SameBefore(a: string, b: string, i: nat)
    requires FirstDifference(a, b, i) && i > 0
    ensures a[0] == b[0]
  {
    assert a[..i][0] == a[0] && b[..i][0] == b[0];
  }

  // ----- Profiles -----

  /** A member is written as a dot and its name, any element as a pair of brackets. */
  ghost function Spelled(steps: seq<Pointer.Step>): string {
    if steps == [] then ""
    else (match steps[0] case Key(name) => "." + name case Index(_) => "[]") + Spelled(steps[1..])
  }

  function TypeName(v: Value): string {
    if v.Object? then "object" else if v.Array? then "array" else if v.String? then "string"
    else if v.Num? then "number" else if v.Bool? then "boolean" else "null"
  }

  ghost predicate StandsAt(v: Value, steps: seq<Pointer.Step>, path: string, x: Value, text: string) {
    Pointer.NodeAt(v, steps) == Some(x) && text == path + Spelled(steps) + ":" + TypeName(x)
  }

  lemma Deeper(v: Value, steps: seq<Pointer.Step>, path: string, x: Value, text: string)
    requires steps != []
    ensures StandsAt(v, steps, path, x, text) <==>
      match steps[0]
      case Key(name) =>
        v.Object? && name in v.members && StandsAt(v.members[name], steps[1..], path + "." + name, x, text)
      case Index(i) => v.Array? && i < |v.items| && StandsAt(v.items[i], steps[1..], path + "[]", x, text)
  {
    match steps[0] {
      case Key(name) => assert path + Spelled(steps) == path + "." + name + Spelled(steps[1..]);
      case Index(_) => assert path + Spelled(steps) == path + "[]" + Spelled(steps[1..]);
    }
  }

  lemma {:induction false} TokenHasPlace(v: Value, path: string, text: string)
      returns (steps: seq<Pointer.Step>, x: Value)
    requires text in Tokens(v, path)
    ensures StandsAt(v, steps, path, x, text)
    decreases v
  {
    hide StandsAt, TokenOf, Pointer.NodeAt, Spelled;
    steps, x := [], v;
    if text == TokenOf(path, v) {
      Here(v, path);
    } else if v.Object? {
      var k :| k in v.members && text in Tokens(v.members[k], path + "." + k);
      var rest;
      rest, x := TokenHasPlace(v.members[k], path + "." + k, text);
      steps := [Pointer.Key(k)] + rest;
      Deeper(v, steps, path, x, text);
      assert steps[1..] == rest;
    } else {
      var i :| 0 <= i < |v.items| && text in Tokens(v.items[i], path + "[]");
      var rest;
      rest, x := TokenHasPlace(v.items[i], path + "[]", text);
      steps := [Pointer.Index(i)] + rest;
      Deeper(v, steps, path, x, text);
      assert steps[1..] == rest;
    }
  }

  lemma Here(v: Value, path: string)
    ensures StandsAt(v, [], path, v, TokenOf(path, v)) && TokenOf(path, v) in Tokens(v, path)
  {
    assert path + "" == path;
  }

  lemma {:induction false} PlaceHasToken(v: Value, path: string, text: string, steps: seq<Pointer.Step>, x: Value)
    requires StandsAt(v, steps, path, x, text)
    ensures text in Tokens(v, path)
    decreases |steps|
  {
    hide StandsAt, TokenOf;
    if steps == [] {
      Here(v, path);
      assert text == TokenOf(path, v) by { OnlyHere(v, path, x, text); }
    } else {
      Deeper(v, steps, path, x, text);
      match steps[0] {
        case Key(name) => PlaceHasToken(v.members[name], path + "." + name, text, steps[1..], x);
        case Index(i) => PlaceHasToken(v.items[i], path + "[]", text, steps[1..], x);
      }
    }
  }

  lemma OnlyHere(v: Value, path: string, x: Value, text: string)
    requires StandsAt(v, [], path, x, text)
    ensures text == TokenOf(path, v)
  {
    assert path + "" == path;
  }

  /** Main result: a profile that was not cut off has exactly one token for every way to a part of the value: the
      way, as it is spelled, and the type of what stands there; its fields are exactly these ways. */
  lemma ProfileExact(v: Value, r: Profile, seen: set<string>, text: string)
    requires IsProfile(v, r, seen) && !r.truncated
    ensures text in r.tokens <==> exists steps, x :: StandsAt(v, steps, "$", x, text)
    ensures text in r.fields <==> exists steps :: Pointer.NodeAt(v, steps).Some? && text == "$" + Spelled(steps)
  {
    hide Tokens, FieldsOf, StandsAt, Pointer.NodeAt, Spelled, Paths;
    assert text in r.tokens <==> text in Tokens(v, "$");
    if text in Tokens(v, "$") {
      var steps, x := TokenHasPlace(v, "$", text);
    }
    if steps, x :| StandsAt(v, steps, "$", x, text) {
      PlaceHasToken(v, "$", text, steps, x);
    }
    FieldsArePlaces(v, text);
  }

  lemma FieldsArePlaces(v: Value, f: string)
    ensures f in FieldsOf(Tokens(v, "$"))
      <==> exists steps :: Pointer.NodeAt(v, steps).Some? && f == "$" + Spelled(steps)
  {
    hide Tokens, FieldsOf, FieldIn, Pointer.NodeAt, Spelled;
    FieldsUnfold(Tokens(v, "$"));
    if f in FieldsOf(Tokens(v, "$")) {
      var steps := FieldHasPlace(v, f);
    }
    if steps :| Pointer.NodeAt(v, steps).Some? && f == "$" + Spelled(steps) {
      PlaceIsField(v, steps);
    }
  }

  lemma FieldHasPlace(v: Value, f: string) returns (steps: seq<Pointer.Step>)
    requires FieldIn(Tokens(v, "$"), f)
    ensures Pointer.NodeAt(v, steps).Some? && f == "$" + Spelled(steps)
  {
    hide Tokens, Pointer.NodeAt, Spelled, LastColon;
    var t :| t in Tokens(v, "$") && LastColon(t) > 0 && t[..LastColon(t)] == f;
    var x;
    steps, x := TokenHasPlace(v, "$", t);
    PlaceField("$" + Spelled(steps), x);
  }

  lemma PlaceIsField(v: Value, steps: seq<Pointer.Step>)
    requires Pointer.NodeAt(v, steps).Some?
    ensures FieldIn(Tokens(v, "$"), "$" + Spelled(steps))
  {
    hide Tokens, Pointer.NodeAt, Spelled, LastColon;
    var x, path := Pointer.NodeAt(v, steps).value, "$" + Spelled(steps);
    var t := path + ":" + TypeName(x);
    assert StandsAt(v, steps, "$", x, t);
    PlaceHasToken(v, "$", t, steps, x);
    PlaceField(path, x);
    assert t in Tokens(v, "$") && LastColon(t) > 0 && t[..LastColon(t)] == path;
  }

  lemma PlaceField(path: string, x: Value)
    ensures var t := path + ":" + TypeName(x); LastColon(t) == |path| && t[..|path|] == path
  {
    TokenSplits(path, x);
    assert TypeName(x) == KindOf(x);
  }

  /** The depth bound, by places. */
  lemma {:induction false} ShallowIff(v: Value, n: nat)
    ensures Shallow(v, n) <==> forall steps :: Pointer.NodeAt(v, steps).Some? ==> |steps| <= n
    decreases v
  {
    if !Shallow(v, n) {
      var steps := DeepPlace(v, n);
    } else {
      forall steps | Pointer.NodeAt(v, steps).Some?
        ensures |steps| <= n
      {
        WithinDepth(v, n, steps);
      }
    }
  }

  lemma {:induction false} WithinDepth(v: Value, n: int, steps: seq<Pointer.Step>)
    requires Shallow(v, n) && Pointer.NodeAt(v, steps).Some?
    ensures |steps| <= n
    decreases |steps|
  {
    if steps != [] {
      match steps[0] {
        case Key(name) => WithinDepth(v.members[name], n - 1, steps[1..]);
        case Index(i) => WithinDepth(v.items[i], n - 1, steps[1..]);
      }
    }
  }

  lemma {:induction false} DeepPlace(v: Value, n: int) returns (steps: seq<Pointer.Step>)
    requires !Shallow(v, n)
    ensures Pointer.NodeAt(v, steps).Some? && |steps| > n
    decreases v
  {
    steps := [];
    if n >= 0 {
      var rest;
      if v.Object? {
        var k :| k in v.members && !Shallow(v.members[k], n - 1);
        rest := DeepPlace(v.members[k], n - 1);
        steps := [Pointer.Key(k)] + rest;
      } else {
        var i :| 0 <= i < |v.items| && !Shallow(v.items[i], n - 1);
        rest := DeepPlace(v.items[i], n - 1);
        steps := [Pointer.Index(i)] + rest;
      }
      assert steps[1..] == rest;
    }
  }

  /** A profile never lists more than 2048 tokens, none that does not stand somewhere, and one of a value within 64
      levels and with fewer tokens is not cut off. */
  lemma ProfileBounds(v: Value, r: Profile, seen: set<string>)
    requires IsProfile(v, r, seen) && (r.truncated <==> !Roomy(Visit(v, "$", 0), {}))
    ensures |seen| <= 2048 && forall text :: text in r.tokens ==> exists steps, x :: StandsAt(v, steps, "$", x, text)
    ensures !r.truncated ==> forall steps :: Pointer.NodeAt(v, steps).Some? ==> |steps| <= 64
    ensures r.truncated ==> |Tokens(v, "$")| >= 2048 || exists steps :: Pointer.NodeAt(v, steps).Some? && |steps| > 64
  {
    hide Tokens, FieldsOf, StandsAt, Pointer.NodeAt, Visit, Roomy, Shallow;
    forall text | text in r.tokens
      ensures exists steps, x :: StandsAt(v, steps, "$", x, text)
    {
      assert text in seen;
      var steps, x := TokenHasPlace(v, "$", text);
    }
    CutOffWhenTooLarge(v);
    ShallowIff(v, 64);
  }

  // ----- Field lookup -----

  /** A separator vanishes from a name, any other character is lower-cased; texts are normalised part by part. */
  lemma NamesNormalize(lower: char -> char, c: char, rest: string)
    ensures Fields.NormalizeField(lower, [c] + rest) ==
      (if lower(c) in "_- " then "" else [lower(c)]) + Fields.NormalizeField(lower, rest)
    ensures Fields.NormalizeField(lower, "") == ""
  {
    assert ([c] + rest)[1..] == rest;
  }

  lemma {:induction false} PartHasPlace(v: Value, x: Value) returns (steps: seq<Pointer.Step>)
    requires x in Fields.Parts(v)
    ensures Pointer.NodeAt(v, steps) == Some(x)
    decreases v, 1, 0
  {
    steps := [];
    if x != v {
      var i := PartIsKid(v, Kids(v), x);
      var kid := Kids(v)[i].value;
      var rest := PartHasPlace(kid, x);
      if v.Object? {
        var keys := SortedKeys(v.members.Keys);
        assert keys[i] in keys;
        steps := [Pointer.Key(keys[i])] + rest;
      } else {
        steps := [Pointer.Index(i)] + rest;
      }
      assert steps[1..] == rest;
    }
  }

  lemma {:induction false} PartIsKid(v: Value, kids: seq<Kid>, x: Value) returns (i: nat)
    requires forall i :: 0 <= i < |kids| ==> kids[i].value < v
    requires x in Fields.PartsOf(v, kids)
    ensures i < |kids| && x in Fields.Parts(kids[i].value)
    decreases |kids|
  {
    var n := |kids| - 1;
    i := n;
    if x !in Fields.Parts(kids[n].value) {
      i := PartIsKid(v, kids[..n], x);
    }
  }

  lemma {:induction false} KidIsPart(v: Value, kids: seq<Kid>, i: nat, x: Value)
    requires forall i :: 0 <= i < |kids| ==> kids[i].value < v
    requires i < |kids| && x in Fields.Parts(kids[i].value)
    ensures x in Fields.PartsOf(v, kids)
    decreases |kids|
  {
    if i < |kids| - 1 {
      KidIsPart(v, kids[..|kids| - 1], i, x);
    }
  }

  lemma {:induction false} PlaceHasPart(v: Value, steps: seq<Pointer.Step>, x: Value)
    requires Pointer.NodeAt(v, steps) == Some(x)
    ensures x in Fields.Parts(v)
    decreases |steps|
  {
    if steps != [] {
      match steps[0] {
        case Key(name) =>
          PlaceHasPart(v.members[name], steps[1..], x);
          var keys := SortedKeys(v.members.Keys);
          assert name in keys;
          var i :| 0 <= i < |keys| && keys[i] == name;
          KidIsPart(v, Kids(v), i, x);
        case Index(i) =>
          PlaceHasPart(v.items[i], steps[1..], x);
          KidIsPart(v, Kids(v), i, x);
      }
    }
  }

  /** The object at this place has a scalar member whose name is the wanted one up to case and separators. */
  ghost predicate Holds(t: Fields.Text, x: Value, want: string, k: string, shown: string) {
    && x.Object? && k in x.members && Fields.NormalizeField(t.lower, k) == want
    && match x.members[k]
       case String(s) => shown == s
       case Num(text) => shown == t.number(text)
       case Bool(b) => shown == if b then "true" else "false"
       case _ => false
  }

  lemma HoldsCandidate(t: Fields.Text, x: Value, want: string, k: string, shown: string)
    ensures Holds(t, x, want, k, shown) <==>
      x.Object? && Fields.Candidate(t, x.members, want, k) && Fields.ScalarString(t, x.members[k]) == Some(shown)
  {
    hide Fields.NormalizeField;
  }

  /** Main result: a field is missing exactly when no place in the value holds such a member, and one that is found
      stands, with the value reported, at some place. */
  lemma AnswerHasPlace(t: Fields.Text, v: Value, field: string, want: string, r: Fields.Resolution)
    requires Fields.Answers(t, Fields.Parts(v), field, want, r)
    ensures r.Missing?
      <==> !exists steps, x, k, shown :: Pointer.NodeAt(v, steps) == Some(x) && Holds(t, x, want, k, shown)
    ensures r.Found? ==> exists steps, x :: Pointer.NodeAt(v, steps) == Some(x) && Holds(t, x, want, r.key, r.value)
  {
    hide Fields.Parts, Pointer.NodeAt, Holds, Fields.NormalizeField, Fields.Local, Fields.ScalarString;
    var parts := Fields.Parts(v);
    if steps, x, k, shown :| Pointer.NodeAt(v, steps) == Some(x) && Holds(t, x, want, k, shown) {
      PlaceHasPart(v, steps, x);
      HoldsCandidate(t, x, want, k, shown);
      assert !Fields.Silent(t, parts, want) by { NotSilent(t, parts, want, x, k); }
      AnswerSpeaks(t, parts, field, want, r);
    }
    if !r.Missing? {
      var i := SomeoneSpeaks(t, parts, field, want, r);
      var steps := PartHasPlace(v, parts[i]);
      var k :| Fields.Candidate(t, parts[i].members, want, k);
      HoldsCandidate(t, parts[i], want, k, Fields.ScalarString(t, parts[i].members[k]).value);
    }
    if r.Found? {
      var i := Fields.FoundMeans(t, v, field, want, r);
      HoldsCandidate(t, parts[i], want, r.key, r.value);
      var steps := PartHasPlace(v, parts[i]);
    }
  }

  lemma NotSilent(t: Fields.Text, parts: seq<Value>, want: string, x: Value, k: string)
    requires x in parts && x.Object? && Fields.Candidate(t, x.members, want, k)
    ensures !Fields.Silent(t, parts, want)
  {
    hide Fields.Candidate;
    assert Fields.HasCandidate(t, x, want);
  }

  lemma AnswerSpeaks(t: Fields.Text, parts: seq<Value>, field: string, want: string, r: Fields.Resolution)
    requires Fields.Answers(t, parts, field, want, r) && !Fields.Silent(t, parts, want)
    ensures !r.Missing?
  {
    hide Fields.Local, Fields.Candidate;
    var i :| Fields.AnswersAt(t, parts, field, want, i, r);
    Fields.LocalDecides(t, parts[i].members, field, want, r);
    Fields.ObjectAgain(t, parts[i], want);
  }

  lemma SomeoneSpeaks(t: Fields.Text, parts: seq<Value>, field: string, want: string, r: Fields.Resolution)
      returns (i: nat)
    requires Fields.Answers(t, parts, field, want, r) && !r.Missing?
    ensures i < |parts| && parts[i].Object? && exists k :: Fields.Candidate(t, parts[i].members, want, k)
  {
    hide Fields.Local, Fields.Candidate;
    i :| Fields.AnswersAt(t, parts, field, want, i, r);
  }
}
