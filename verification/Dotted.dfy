/** Dotted paths into a response body. Where a body spells a name only in other cases, map iteration
    picks one of its spellings: what a path can be read as, and exactly when it has one reading. */
module Dotted {
  import opened Basics
  import opened Json
  import opened Model
  import opened Sorting
  import Pointer
  import Principal

  /** Text operations taken as given: one representative for the cases of a character, the rendering
      of a number as a float if it fits one, and whether raw bytes hold a text up to case. */
  datatype Text = Text(fold: char -> char, number: string -> Option<string>, contains: (Raw, string) -> bool)

  /** The key a map iteration comes upon first, for each number of parts left to read. The other keys
      follow in ascending order: a search stops at its first match, so no other order adds an answer. */
  type Order = nat -> string

  function Folded(text: Text, s: string): string {
    seq(|s|, i requires 0 <= i < |s| => text.fold(s[i]))
  }

  predicate SameFold(text: Text, a: string, b: string) {
    Folded(text, a) == Folded(text, b)
  }

  // ----- One name -----

  /** The spellings of a name among an object's keys. */
  ghost function Spellings(text: Text, members: map<string, Value>, name: string): set<string> {
    set k | k in members && SameFold(text, k, name)
  }

  /** Which member a lookup returns: the exact key, else the spelling that iteration meets first. */
  ghost function Picked(text: Text, members: map<string, Value>, name: string, first: string): Option<string> {
    var all := Spellings(text, members, name);
    if name in members then Some(name)
    else if first in all then Some(first)
    else if all == {} then None
    else
      LeastExists(all);
      var k :| IsLeast(k, all);
      Some(k)
  }

  lemma PickedIs(text: Text, members: map<string, Value>, name: string, first: string)
    ensures var k := Picked(text, members, name, first);
      && (k.Some? ==> k.value in Spellings(text, members, name))
      && (k.None? <==> Spellings(text, members, name) == {})
      && (name in members ==> k == Some(name))
      && (name !in members && first in Spellings(text, members, name) ==> k == Some(first))
  {
    if name in members {
      assert name in Spellings(text, members, name);
    }
  }

  // The first spelling in ascending order is the least one, and there is only one least.
  lemma LeastOf(text: Text, members: map<string, Value>, name: string, names: seq<string>, i: nat)
    requires Sorted(names) && Lists(names, members.Keys) && i < |names| && SameFold(text, names[i], name)
    requires forall j :: 0 <= j < i ==> !SameFold(text, names[j], name)
    ensures forall k :: IsLeast(k, Spellings(text, members, name)) <==> k == names[i]
  {
    var all := Spellings(text, members, name);
    assert names[i] in names;
    forall k | k in all && k != names[i]
      ensures Less(names[i], k)
    {
      assert k in names;
    }
    forall k | IsLeast(k, all)
      ensures k == names[i]
    {
      LessIsStrict(k, names[i]);
    }
  }

  lemma PickedLeast(text: Text, members: map<string, Value>, name: string, first: string, names: seq<string>, i: nat)
    requires Sorted(names) && Lists(names, members.Keys) && i < |names| && SameFold(text, names[i], name)
    requires forall j :: 0 <= j < i ==> !SameFold(text, names[j], name)
    requires name !in members && first !in Spellings(text, members, name)
    ensures Picked(text, members, name, first) == Some(names[i]) && names[i] in members
  {
    hide SameFold, Less;
    LeastOf(text, members, name, names, i);
    assert names[i] in names;
    assert names[i] in Spellings(text, members, name);
  }

  lemma NoSpellings(text: Text, members: map<string, Value>, name: string, names: seq<string>)
    requires Lists(names, members.Keys) && forall j :: 0 <= j < |names| ==> !SameFold(text, names[j], name)
    ensures Spellings(text, members, name) == {}
  {
    forall k | k in members
      ensures !SameFold(text, k, name)
    {
      assert k in names;
    }
  }

  method LookupInsensitive(text: Text, members: map<string, Value>, name: string, first: string)
    returns (r: Option<Value>)
    ensures var k := Picked(text, members, name, first);
      r == if k.Some? && k.value in members then Some(members[k.value]) else None
  {
    hide Picked, SameFold, Less;
    PickedIs(text, members, name, first);
    if name in members {
      return Some(members[name]);
    }
    if first in members && SameFold(text, first, name) {
      return Some(members[first]);
    }
    var names := SortNames(members.Keys);
    for i := 0 to |names|
      invariant forall j :: 0 <= j < i ==> !SameFold(text, names[j], name)
    {
      if SameFold(text, names[i], name) {
        PickedLeast(text, members, name, first, names, i);
        return Some(members[names[i]]);
      }
    }
    NoSpellings(text, members, name, names);
    return None;
  }

  // ----- A whole path -----

  /** A list of one element is read as that element. */
  function Unwrap(v: Value): Value {
    if v.Array? && |v.items| == 1 then v.items[0] else v
  }

  function Rendered(text: Text, v: Value): Option<string> {
    match v
    case String(s) => Some(s)
    case Num(t) => text.number(t)
    case Bool(b) => Some(if b then "true" else "false")
    case _ => None
  }

  ghost function ValueFrom(text: Text, v: Value, parts: seq<string>, order: Order): Option<string>
    decreases |parts|
  {
    var u := Unwrap(v);
    if parts == [] then Rendered(text, u)
    else if !u.Object? then None
    else
      var k := Picked(text, u.members, parts[0], order(|parts|));
      if k.Some? && k.value in u.members then ValueFrom(text, u.members[k.value], parts[1..], order) else None
  }

  predicate NumbersRender(text: Text, tokens: seq<Token>) {
    forall i :: 0 <= i < |tokens| && tokens[i].NumberToken? ==> text.number(tokens[i].n.Text()).Some?
  }

  /** One document all of whose numbers fit a float. */
  function Unmarshal(text: Text, body: Raw): Option<Value> {
    var v :- Principal.Document(body);
    if body.Raw? && NumbersRender(text, body.tokens) then Some(v) else None
  }

  ghost function ValueAt(text: Text, body: Raw, path: string, order: Order): Option<string> {
    if path == "" then None
    else
      var v := Unmarshal(text, body);
      if v.None? then None else ValueFrom(text, v.value, Principal.Parts(path), order)
  }

  method ValueAtPath(text: Text, body: Raw, path: string, order: Order) returns (r: Option<string>)
    ensures r == ValueAt(text, body, path, order)
  {
    if body.Absent? || path == "" {
      return None;
    }
    var decoded := Unmarshal(text, body);
    if decoded.None? {
      return None;
    }
    var v, parts := decoded.value, Principal.Parts(path);
    for i := 0 to |parts|
      invariant ValueFrom(text, decoded.value, parts, order) == ValueFrom(text, v, parts[i..], order)
    {
      assert parts[i..][1..] == parts[i + 1..];
      if v.Array? && |v.items| == 1 {
        v := v.items[0];
      }
      if !v.Object? {
        return None;
      }
      var next := LookupInsensitive(text, v.members, parts[i], order(|parts| - i));
      if next.None? {
        return None;
      }
      v := next.value;
    }
    assert parts[|parts|..] == [];
    if v.Array? && |v.items| == 1 {
      v := v.items[0];
    }
    return Rendered(text, v);
  }

  // ----- One reading or several -----

  /** Whatever iteration comes upon first, in ascending order. */
  const ASCENDING: Order := n => ""

  /** On the way the path takes, spellings that rival each other read alike. */
  ghost predicate Steady(text: Text, v: Value, parts: seq<string>)
    decreases |parts|
  {
    var u := Unwrap(v);
    parts != [] && u.Object? ==>
      if parts[0] in u.members then Steady(text, u.members[parts[0]], parts[1..])
      else
        && (forall k :: k in Spellings(text, u.members, parts[0]) ==> Steady(text, u.members[k], parts[1..]))
        && forall k, l :: k in Spellings(text, u.members, parts[0]) && l in Spellings(text, u.members, parts[0]) ==>
             ValueFrom(text, u.members[k], parts[1..], ASCENDING)
             == ValueFrom(text, u.members[l], parts[1..], ASCENDING)
  }

  lemma {:induction false} SteadyReadsOnce(text: Text, v: Value, parts: seq<string>, order: Order)
    requires Steady(text, v, parts)
    ensures ValueFrom(text, v, parts, order) == ValueFrom(text, v, parts, ASCENDING)
    decreases |parts|
  {
    hide Picked, Rendered;
    var u := Unwrap(v);
    if parts != [] && u.Object? {
      PickedIs(text, u.members, parts[0], order(|parts|));
      PickedIs(text, u.members, parts[0], ASCENDING(|parts|));
      var k := Picked(text, u.members, parts[0], order(|parts|));
      if k.Some? {
        SteadyReadsOnce(text, u.members[k.value], parts[1..], order);
      }
    }
  }

  /** The same order, except for what it meets first with n parts left. */
  function But(order: Order, n: nat, first: string): Order {
    (m: nat) => if m == n then first else order(m)
  }

  lemma {:induction false} LaterOnly(text: Text, v: Value, parts: seq<string>, order: Order, n: nat, first: string)
    requires n > |parts|
    ensures ValueFrom(text, v, parts, But(order, n, first)) == ValueFrom(text, v, parts, order)
    decreases |parts|
  {
    hide Rendered;
    var u := Unwrap(v);
    if parts != [] && u.Object? {
      var k := Picked(text, u.members, parts[0], order(|parts|));
      if k.Some? && k.value in u.members {
        LaterOnly(text, u.members[k.value], parts[1..], order, n, first);
      }
    }
  }

  lemma Through(text: Text, members: map<string, Value>, parts: seq<string>, order: Order, k: string)
    requires parts != [] && parts[0] !in members && k in Spellings(text, members, parts[0])
    ensures ValueFrom(text, Object(members), parts, But(order, |parts|, k))
         == ValueFrom(text, members[k], parts[1..], order)
  {
    PickedIs(text, members, parts[0], k);
    LaterOnly(text, members[k], parts[1..], order, |parts|, k);
  }

  lemma {:induction false} UnsteadyReadsTwice(text: Text, v: Value, parts: seq<string>) returns (a: Order, b: Order)
    requires !Steady(text, v, parts)
    ensures ValueFrom(text, v, parts, a) != ValueFrom(text, v, parts, b)
    decreases |parts|
  {
    var u := Unwrap(v);
    var name, rest, n := parts[0], parts[1..], |parts|;
    if name in u.members {
      a, b := UnsteadyReadsTwice(text, u.members[name], rest);
      PickedIs(text, u.members, name, a(n));
      PickedIs(text, u.members, name, b(n));
    } else if k :| k in Spellings(text, u.members, name) && !Steady(text, u.members[k], rest) {
      var c, d := UnsteadyReadsTwice(text, u.members[k], rest);
      a, b := But(c, n, k), But(d, n, k);
      Through(text, u.members, parts, c, k);
      Through(text, u.members, parts, d, k);
      assert u == Object(u.members);
    } else {
      var k, l :| k in Spellings(text, u.members, name) && l in Spellings(text, u.members, name)
        && ValueFrom(text, u.members[k], rest, ASCENDING) != ValueFrom(text, u.members[l], rest, ASCENDING);
      a, b := But(ASCENDING, n, k), But(ASCENDING, n, l);
      Through(text, u.members, parts, ASCENDING, k);
      Through(text, u.members, parts, ASCENDING, l);
      assert u == Object(u.members);
    }
  }

  /** Main result: a path has one reading in a value exactly when the spellings that rival each other
      on its way, if there are any, read alike. */
  lemma OneReadingIff(text: Text, v: Value, parts: seq<string>)
    ensures (forall a: Order, b: Order :: ValueFrom(text, v, parts, a) == ValueFrom(text, v, parts, b))
      <==> Steady(text, v, parts)
  {
    hide Steady;
    if Steady(text, v, parts) {
      forall a: Order, b: Order
        ensures ValueFrom(text, v, parts, a) == ValueFrom(text, v, parts, b)
      {
        SteadyReadsOnce(text, v, parts, a);
        SteadyReadsOnce(text, v, parts, b);
      }
    } else {
      var a, b := UnsteadyReadsTwice(text, v, parts);
    }
  }

  ghost predicate ReadsOnce(text: Text, body: Raw, path: string) {
    forall a: Order, b: Order :: ValueAt(text, body, path, a) == ValueAt(text, body, path, b)
  }

  /** The same for a body: it may also hold no document that could be read. */
  lemma ReadsOnceIff(text: Text, body: Raw, path: string)
    ensures ReadsOnce(text, body, path) <==>
      || path == "" || Unmarshal(text, body).None?
      || Steady(text, Unmarshal(text, body).value, Principal.Parts(path))
  {
    hide Steady, ValueFrom, Unmarshal;
    if path != "" && Unmarshal(text, body).Some? {
      var v, parts := Unmarshal(text, body).value, Principal.Parts(path);
      OneReadingIff(text, v, parts);
      if ReadsOnce(text, body, path) {
        forall a: Order, b: Order
          ensures ValueFrom(text, v, parts, a) == ValueFrom(text, v, parts, b)
        {
          assert ValueAt(text, body, path, a) == ValueAt(text, body, path, b);
        }
      }
      if Steady(text, v, parts) {
        forall a: Order, b: Order
          ensures ValueAt(text, body, path, a) == ValueAt(text, body, path, b)
        {
          assert ValueFrom(text, v, parts, a) == ValueFrom(text, v, parts, b);
        }
      }
    }
  }

  // ----- Deny conditions -----

  predicate Mentions(text: Text, body: Raw, needles: seq<string>) {
    exists i :: 0 <= i < |needles| && needles[i] != "" && text.contains(body, needles[i])
  }

  /** A field condition holds of any value if it names none, else of that value in any case. */
  ghost predicate FieldHolds(text: Text, cond: DenyCondition, value: Option<string>) {
    value.Some? && (cond.equals == "" || SameFold(text, value.value, cond.equals))
  }

  ghost predicate Matches(text: Text, body: Raw, cond: DenyCondition, order: Order) {
    && body.Raw?
    && (Mentions(text, body, cond.bodyContains) || FieldHolds(text, cond, ValueAt(text, body, cond.path, order)))
  }

  method MatchesDeny(text: Text, body: Raw, cond: DenyCondition, order: Order) returns (ok: bool)
    ensures ok <==> Matches(text, body, cond, order)
  {
    hide ValueAt, SameFold;
    if body.Absent? {
      return false;
    }
    for i := 0 to |cond.bodyContains|
      invariant !Mentions(text, body, cond.bodyContains[..i])
    {
      var needle := cond.bodyContains[i];
      assert cond.bodyContains[..i + 1] == cond.bodyContains[..i] + [needle];
      if needle == "" {
        continue;
      }
      if text.contains(body, needle) {
        return true;
      }
    }
    assert cond.bodyContains[..|cond.bodyContains|] == cond.bodyContains;
    if cond.path != "" {
      var value := ValueAtPath(text, body, cond.path, order);
      if value.None? {
        return false;
      }
      return cond.equals == "" || SameFold(text, value.value, cond.equals);
    }
    NoPath(text, body, order);
    return false;
  }

  lemma NoPath(text: Text, body: Raw, order: Order)
    ensures ValueAt(text, body, "", order) == None
  {
  }

  // ----- Which conditions some body leaves open -----

  /** The condition holds of this body or not, as iteration falls. */
  ghost predicate Open(text: Text, body: Raw, cond: DenyCondition) {
    exists a: Order, b: Order :: Matches(text, body, cond, a) && !Matches(text, body, cond, b)
  }

  ghost predicate CanBeOpen(text: Text, cond: DenyCondition) {
    exists body :: Open(text, body, cond)
  }

  /** Besides its own spelling the name has two more. */
  ghost predicate Ambiguous(text: Text, name: string) {
    exists a, b :: a != b && a != name && b != name && SameFold(text, a, name) && SameFold(text, b, name)
  }

  predicate OtherCase(text: Text, c: char, d: char) {
    d != c && text.fold(d) == text.fold(c)
  }

  /** Read off a name: two of its characters have another case, or one has two others. */
  ghost predicate TwoMoreCases(text: Text, name: string) {
    || (exists i, j, c, d ::
          0 <= i < j < |name| && OtherCase(text, name[i], c) && OtherCase(text, name[j], d))
    || exists i, c, d ::
         0 <= i < |name| && c != d && OtherCase(text, name[i], c) && OtherCase(text, name[i], d)
  }

  lemma Respelled(text: Text, name: string, i: nat, c: char)
    requires i < |name| && OtherCase(text, name[i], c)
    ensures name[i := c] != name && SameFold(text, name[i := c], name)
  {
    assert name[i := c][i] == c;
    assert Folded(text, name[i := c]) == Folded(text, name);
  }

  lemma CaseAt(text: Text, a: string, name: string, i: nat)
    requires SameFold(text, a, name)
    ensures |a| == |name| && (i < |a| && a[i] != name[i] ==> OtherCase(text, name[i], a[i]))
  {
    assert |Folded(text, a)| == |Folded(text, name)|;
    assert i < |a| ==> Folded(text, a)[i] == Folded(text, name)[i];
  }

  lemma TwoPlaces(text: Text, name: string, i: nat, j: nat, c: char, d: char)
    requires i < |name| && j < |name| && i != j && OtherCase(text, name[i], c) && OtherCase(text, name[j], d)
    ensures TwoMoreCases(text, name)
  {
  }

  lemma TwoSpellingsShow(text: Text, name: string, a: string, b: string)
    requires a != b && a != name && b != name && SameFold(text, a, name) && SameFold(text, b, name)
    ensures TwoMoreCases(text, name)
  {
    hide SameFold, OtherCase, TwoMoreCases;
    CaseAt(text, a, name, 0);
    CaseAt(text, b, name, 0);
    var i :| 0 <= i < |a| && a[i] != name[i];
    var j :| 0 <= j < |b| && b[j] != name[j];
    var k :| 0 <= k < |a| && a[k] != b[k];
    CaseAt(text, a, name, i);
    CaseAt(text, b, name, j);
    CaseAt(text, a, name, k);
    CaseAt(text, b, name, k);
    if i != j {
      TwoPlaces(text, name, i, j, a[i], b[j]);
    } else if k == i {
      assert TwoMoreCases(text, name) by { TwoCases(text, name, i, a[i], b[i]); }
    } else if a[k] != name[k] {
      TwoPlaces(text, name, i, k, a[i], a[k]);
    } else {
      TwoPlaces(text, name, i, k, a[i], b[k]);
    }
  }

  lemma TwoCases(text: Text, name: string, i: nat, c: char, d: char)
    requires i < |name| && c != d && OtherCase(text, name[i], c) && OtherCase(text, name[i], d)
    ensures TwoMoreCases(text, name)
  {
  }

  /** A name is ambiguous exactly when two of its characters have another case or one has two. */
  lemma AmbiguousIff(text: Text, name: string)
    ensures Ambiguous(text, name) <==> TwoMoreCases(text, name)
  {
    if a, b :| a != b && a != name && b != name && SameFold(text, a, name) && SameFold(text, b, name) {
      TwoSpellingsShow(text, name, a, b);
    }
    if i, j, c, d :| 0 <= i < j < |name| && OtherCase(text, name[i], c) && OtherCase(text, name[j], d) {
      Respelled(text, name, i, c);
      Respelled(text, name, j, d);
      assert name[i := c][j] == name[j] && name[j := d][j] == d;
    }
    if i, c, d :| 0 <= i < |name| && c != d && OtherCase(text, name[i], c) && OtherCase(text, name[i], d) {
      Respelled(text, name, i, c);
      Respelled(text, name, i, d);
      assert name[i := c][i] == c && name[i := d][i] == d;
    }
  }

  /** A document can be as deep as the path and some part of the path is ambiguous. */
  ghost predicate PathOpen(text: Text, path: string) {
    && path != "" && |Principal.Parts(path)| <= Principal.MAX_OPEN
    && exists i :: 0 <= i < |Principal.Parts(path)| && Ambiguous(text, Principal.Parts(path)[i])
  }

  /** Without ambiguous parts there is nothing to pick from. */
  lemma {:induction false} UnambiguousIsSteady(text: Text, v: Value, parts: seq<string>)
    requires forall i :: 0 <= i < |parts| ==> !Ambiguous(text, parts[i])
    ensures Steady(text, v, parts)
    decreases |parts|
  {
    var u := Unwrap(v);
    if parts != [] && u.Object? {
      forall k | k in u.members
        ensures Steady(text, u.members[k], parts[1..])
      {
        UnambiguousIsSteady(text, u.members[k], parts[1..]);
      }
      assert !Ambiguous(text, parts[0]);
    }
  }

  lemma UnwrapDoc(d: Doc, depth: nat) returns (inner: Doc, at: nat)
    requires Acceptable(STANDARD_MODE, d, depth)
    ensures Unwrap(Meaning(STANDARD_MODE, d)) == Meaning(STANDARD_MODE, inner)
    ensures depth <= at && Acceptable(STANDARD_MODE, inner, at)
  {
    inner, at := d, depth;
    if d.ArrayDoc? {
      ItemsMeaningAt(STANDARD_MODE, d.items);
      if |d.items| == 1 {
        inner, at := d.items[0], depth + 1;
      }
    }
  }

  /** A path with a value in a document opens one container per part. */
  lemma {:induction false} ValueIsWithin(text: Text, d: Doc, depth: nat, parts: seq<string>, order: Order)
    requires Acceptable(STANDARD_MODE, d, depth) && depth <= Principal.MAX_OPEN
    requires ValueFrom(text, Meaning(STANDARD_MODE, d), parts, order).Some?
    ensures depth + |parts| <= Principal.MAX_OPEN
    decreases |parts|
  {
    if parts != [] {
      var inner, at := UnwrapDoc(d, depth);
      var members := Meaning(STANDARD_MODE, inner).members;
      var k := Picked(text, members, parts[0], order(|parts|)).value;
      MembersMeaningFrom(STANDARD_MODE, inner.members, map[], k);
      var i :| 0 <= i < |inner.members| && members[k] == Meaning(STANDARD_MODE, inner.members[i].value);
      ValueIsWithin(text, inner.members[i].value, at + 1, parts[1..], order);
    }
  }

  lemma OpenNeedsPath(text: Text, body: Raw, cond: DenyCondition)
    requires Open(text, body, cond)
    ensures PathOpen(text, cond.path)
  {
    hide ValueFrom, Steady, SameFold, Ambiguous;
    var a: Order, b: Order :| Matches(text, body, cond, a) && !Matches(text, body, cond, b);
    var parts, v := Principal.Parts(cond.path), Unmarshal(text, body).value;
    var d := ParseSound(STANDARD_MODE, body.tokens, 0);
    ValueIsWithin(text, d, 0, parts, a);
    if forall i :: 0 <= i < |parts| ==> !Ambiguous(text, parts[i]) {
      UnambiguousIsSteady(text, v, parts);
      SteadyReadsOnce(text, v, parts, a);
      SteadyReadsOnce(text, v, parts, b);
    }
  }

  // ----- A body that leaves an open path open -----

  function Chain(parts: seq<string>, leaf: Doc): Doc {
    if parts == [] then leaf else ObjectDoc([Member(parts[0], Chain(parts[1..], leaf))])
  }

  /** The path written out, with two spellings of its part i: below one the leaf, below the other null. */
  function Forked(parts: seq<string>, i: nat, a: string, b: string, leaf: Doc): Doc
    requires i < |parts|
  {
    if i == 0 then ObjectDoc([Member(a, Chain(parts[1..], leaf)), Member(b, Scalar(NullToken))])
    else ObjectDoc([Member(parts[0], Forked(parts[1..], i - 1, a, b, leaf))])
  }

  ghost predicate NoNumbers(ts: seq<Token>) {
    forall i :: 0 <= i < |ts| ==> !ts[i].NumberToken?
  }

  lemma OneMember(key: string, d: Doc, depth: nat)
    requires depth < Principal.MAX_OPEN && Acceptable(STANDARD_MODE, d, depth + 1) && NoNumbers(Print(d))
    ensures var o := ObjectDoc([Member(key, d)]);
      && Meaning(STANDARD_MODE, o) == Object(map[key := Meaning(STANDARD_MODE, d)])
      && Acceptable(STANDARD_MODE, o, depth) && NoNumbers(Print(o))
  {
    var members := [Member(key, d)];
    assert members[1..] == [];
    assert PrintMembers(members) == [StringToken(key)] + (Print(d) + []);
    assert MembersMeaning(STANDARD_MODE, members, map[]) == map[key := Meaning(STANDARD_MODE, d)];
  }

  lemma TwoMembersMean(a: string, c: Doc, b: string, d: Doc)
    ensures Meaning(STANDARD_MODE, ObjectDoc([Member(a, c), Member(b, d)]))
         == Object(map[a := Meaning(STANDARD_MODE, c), b := Meaning(STANDARD_MODE, d)])
  {
    var one, two := [Member(a, c)], [Member(a, c), Member(b, d)];
    Principal.AppendedMeaning(one, Member(b, d), map[]);
    assert one + [Member(b, d)] == two && one[1..] == [];
    assert MembersMeaning(STANDARD_MODE, one, map[]) == map[a := Meaning(STANDARD_MODE, c)];
  }

  lemma TwoMembersPrint(a: string, c: Doc, b: string, d: Doc)
    requires NoNumbers(Print(c)) && NoNumbers(Print(d))
    ensures NoNumbers(Print(ObjectDoc([Member(a, c), Member(b, d)])))
  {
    var two := [Member(a, c), Member(b, d)];
    assert two[1..] == [Member(b, d)] && two[1..][1..] == [];
    var tail := [StringToken(b)] + (Print(d) + []);
    assert PrintMembers(two[1..]) == tail;
    assert PrintMembers(two) == [StringToken(a)] + (Print(c) + tail);
    assert NoNumbers(tail) && NoNumbers(Print(c) + tail);
  }

  lemma TwoMembers(a: string, c: Doc, b: string, d: Doc, depth: nat)
    requires depth < Principal.MAX_OPEN && a != b
    requires Acceptable(STANDARD_MODE, c, depth + 1) && NoNumbers(Print(c))
    requires Acceptable(STANDARD_MODE, d, depth + 1) && NoNumbers(Print(d))
    ensures var o := ObjectDoc([Member(a, c), Member(b, d)]);
      && Meaning(STANDARD_MODE, o) == Object(map[a := Meaning(STANDARD_MODE, c), b := Meaning(STANDARD_MODE, d)])
      && Acceptable(STANDARD_MODE, o, depth) && NoNumbers(Print(o))
  {
    hide Meaning, Print, NoNumbers;
    TwoMembersMean(a, c, b, d);
    TwoMembersPrint(a, c, b, d);
    assert AllMembers(STANDARD_MODE, [Member(a, c), Member(b, d)], depth + 1);
  }

  lemma {:induction false} ChainReads(text: Text, parts: seq<string>, s: string, depth: nat, order: Order)
    requires depth + |parts| <= Principal.MAX_OPEN
    ensures var d := Chain(parts, Scalar(StringToken(s)));
      && Acceptable(STANDARD_MODE, d, depth) && NoNumbers(Print(d))
      && ValueFrom(text, Meaning(STANDARD_MODE, d), parts, order) == Some(s)
    decreases |parts|
  {
    if parts != [] {
      var inner := Chain(parts[1..], Scalar(StringToken(s)));
      ChainReads(text, parts[1..], s, depth + 1, order);
      OneMember(parts[0], inner, depth);
      PickedIs(text, map[parts[0] := Meaning(STANDARD_MODE, inner)], parts[0], order(|parts|));
    }
  }

  lemma {:induction false} ForkedReads(text: Text, parts: seq<string>, i: nat, a: string, b: string, s: string,
      depth: nat)
    requires i < |parts| && depth + |parts| <= Principal.MAX_OPEN
    requires a != b && a != parts[i] && b != parts[i] && SameFold(text, a, parts[i]) && SameFold(text, b, parts[i])
    ensures var d := Forked(parts, i, a, b, Scalar(StringToken(s)));
      && Acceptable(STANDARD_MODE, d, depth) && NoNumbers(Print(d))
      && ValueFrom(text, Meaning(STANDARD_MODE, d), parts, But(ASCENDING, |parts| - i, a)) == Some(s)
      && ValueFrom(text, Meaning(STANDARD_MODE, d), parts, But(ASCENDING, |parts| - i, b)) == None
    decreases i
  {
    hide SameFold, Acceptable, Meaning, Print;
    var leaf := Scalar(StringToken(s));
    if i == 0 {
      var c := Chain(parts[1..], leaf);
      ChainReads(text, parts[1..], s, depth + 1, ASCENDING);
      NullDoc(text, depth + 1, parts[1..], ASCENDING);
      TwoMembers(a, c, b, Scalar(NullToken), depth);
      var members := map[a := Meaning(STANDARD_MODE, c), b := Null];
      assert a in Spellings(text, members, parts[0]) && b in Spellings(text, members, parts[0]);
      Through(text, members, parts, ASCENDING, a);
      Through(text, members, parts, ASCENDING, b);
    } else {
      var inner := Forked(parts[1..], i - 1, a, b, leaf);
      ForkedReads(text, parts[1..], i - 1, a, b, s, depth + 1);
      OneMember(parts[0], inner, depth);
      var members := map[parts[0] := Meaning(STANDARD_MODE, inner)];
      PickedIs(text, members, parts[0], But(ASCENDING, |parts| - i, a)(|parts|));
      PickedIs(text, members, parts[0], But(ASCENDING, |parts| - i, b)(|parts|));
      assert |parts[1..]| - (i - 1) == |parts| - i;
    }
  }

  lemma NullDoc(text: Text, depth: nat, parts: seq<string>, order: Order)
    ensures var d := Scalar(NullToken);
      && Acceptable(STANDARD_MODE, d, depth) && NoNumbers(Print(d)) && Meaning(STANDARD_MODE, d) == Null
    ensures ValueFrom(text, Null, parts, order) == None
  {
  }

  /** Two readings of one path in one body, one of them a given text. */
  lemma OpenPathForks(text: Text, path: string, s: string) returns (body: Raw, a: Order, b: Order)
    requires PathOpen(text, path)
    ensures body.Raw? && ValueAt(text, body, path, a) == Some(s) && ValueAt(text, body, path, b) == None
  {
    hide SameFold, Acceptable, Meaning, Print, ValueFrom;
    var parts := Principal.Parts(path);
    var i :| 0 <= i < |parts| && Ambiguous(text, parts[i]);
    var x, y :| x != y && x != parts[i] && y != parts[i] && SameFold(text, x, parts[i]) && SameFold(text, y, parts[i]);
    ForkedReads(text, parts, i, x, y, s, 0);
    var d := Forked(parts, i, x, y, Scalar(StringToken(s)));
    body, a, b := Raw(true, Print(d)), But(ASCENDING, |parts| - i, x), But(ASCENDING, |parts| - i, y);
    assert Print(d) + [] == Print(d);
    ParsePrint(STANDARD_MODE, d, 0, []);
    assert Unmarshal(text, body) == Some(Meaning(STANDARD_MODE, d));
  }

  /** Main result: only a condition on an open path can be left open by a body, and without texts to
      look for in the raw body every such condition is. */
  lemma CanBeOpenIff(text: Text, cond: DenyCondition)
    ensures CanBeOpen(text, cond) ==> PathOpen(text, cond.path)
    ensures (forall i :: 0 <= i < |cond.bodyContains| ==> cond.bodyContains[i] == "") ==>
      (CanBeOpen(text, cond) <==> PathOpen(text, cond.path))
  {
    hide ValueAt, PathOpen;
    if body :| Open(text, body, cond) {
      OpenNeedsPath(text, body, cond);
    }
    if PathOpen(text, cond.path) && forall i :: 0 <= i < |cond.bodyContains| ==> cond.bodyContains[i] == "" {
      var body, a, b := OpenPathForks(text, cond.path, cond.equals);
      assert Matches(text, body, cond, a) && !Matches(text, body, cond, b);
      assert Open(text, body, cond);
    }
  }
}
