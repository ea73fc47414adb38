/** Finding a named field in a response: spelling-insensitive matching and the search that
    prefers shallow objects and exact spellings and refuses to guess. */
module Fields {
  import opened Basics
  import opened Json
  import opened Sorting
  import opened Profiles

  /** Text operations taken as given: lower case per character, case-insensitive equality, and the
      rendering of numbers. */
  datatype Text = Text(lower: char -> char, equalFold: (string, string) -> bool, number: string -> string)

  // ----- Normalised names -----

  predicate IsSeparator(c: char) {
    c == '_' || c == '-' || c == ' '
  }

  predicate IsAscii(c: char) {
    c < '\U{0080}'
  }

  function AsciiLower(c: char): char {
    if 'A' <= c <= 'Z' then (c as int + 32) as char else c
  }

  /** Lower case is the usual one on ASCII, whatever it does elsewhere. */
  ghost predicate AgreesOnAscii(lower: char -> char) {
    forall c :: IsAscii(c) ==> lower(c) == AsciiLower(c)
  }

  /** Lower-cased, without separators. */
  function NormalizeField(lower: char -> char, name: string): string {
    if name == "" then ""
    else
      var c := lower(name[0]);
      (if IsSeparator(c) then "" else [c]) + NormalizeField(lower, name[1..])
  }

  lemma {:induction false} NormalizeConcat(lower: char -> char, a: string, b: string)
    ensures NormalizeField(lower, a + b) == NormalizeField(lower, a) + NormalizeField(lower, b)
  {
    if a == "" {
      assert a + b == b;
    } else {
      NormalizeConcat(lower, a[1..], b);
      assert (a + b)[1..] == a[1..] + b;
      var first := if IsSeparator(lower(a[0])) then "" else [lower(a[0])];
      Associates(first, NormalizeField(lower, a[1..]), NormalizeField(lower, b));
    }
  }

  lemma NormalizeOne(lower: char -> char, c: char)
    requires AgreesOnAscii(lower) && IsAscii(c)
    ensures NormalizeField(lower, [c]) == if IsSeparator(c) then "" else [AsciiLower(c)]
  {
    assert [c][1..] == "";
    assert NormalizeField(lower, [c]) == (if IsSeparator(lower(c)) then "" else [lower(c)]) + NormalizeField(lower, "");
  }

  /** Without building the normalised name, up to the first character outside ASCII. */
  method MatchesNormalized(lower: char -> char, name: string, want: string) returns (matches: bool)
    requires AgreesOnAscii(lower)
    ensures matches <==> NormalizeField(lower, name) == want
  {
    hide NormalizeField;
    var j := 0;
    assert NormalizeField(lower, name[..0]) == "" by { assert name[..0] == ""; NormalizeNothing(lower); }
    for i := 0 to |name|
      invariant j <= |want| && NormalizeField(lower, name[..i]) == want[..j]
    {
      var c := name[i];
      assert name[..i + 1] == name[..i] + [c] && name == name[..i + 1] + name[i + 1..];
      if c >= '\U{0080}' {
        return NormalizeField(lower, name) == want;
      }
      NormalizeConcat(lower, name[..i], [c]);
      NormalizeConcat(lower, name[..i + 1], name[i + 1..]);
      NormalizeOne(lower, c);
      if c == '_' || c == '-' || c == ' ' {
        continue;
      }
      if 'A' <= c <= 'Z' {
        c := (c as int + 32) as char;
      }
      if j >= |want| || want[j] != c {
        assert NormalizeField(lower, name)[j] == c && |NormalizeField(lower, name)| > j;
        return false;
      }
      j := j + 1;
    }
    assert name[..|name|] == name;
    return j == |want|;
  }

  lemma NormalizeNothing(lower: char -> char)
    ensures NormalizeField(lower, "") == ""
  {
  }

  // ----- The search -----

  datatype Resolution = Missing | Found(key: string, value: string) | Ambiguous

  function ScalarString(t: Text, v: Value): Option<string> {
    match v
    case String(s) => Some(s)
    case Bool(b) => Some(if b then "true" else "false")
    case Num(text) => Some(t.number(text))
    case _ => None
  }

  /** A scalar member whose name normalises to the wanted one. */
  predicate Candidate(t: Text, members: map<string, Value>, want: string, k: string) {
    k in members && ScalarString(t, members[k]).Some? && NormalizeField(t.lower, k) == want
  }

  /** The candidates spelled as asked for, up to case, or the others. */
  ghost function Tier(t: Text, members: map<string, Value>, field: string, want: string, exact: bool): set<string> {
    set k | k in members && Candidate(t, members, want, k) && t.equalFold(k, field) == exact
  }

  ghost predicate Agreed(t: Text, members: map<string, Value>, tier: set<string>) {
    forall a, b :: a in tier && b in tier ==>
      a in members && b in members && ScalarString(t, members[a]) == ScalarString(t, members[b])
  }

  /** One tier's answer: its common value under its first name, or ambiguity. */
  ghost predicate Settles(t: Text, members: map<string, Value>, tier: set<string>, r: Resolution) {
    if tier == {} then r.Missing?
    else if !Agreed(t, members, tier) then r.Ambiguous?
    else r.Found? && IsLeast(r.key, tier) && r.key in members && ScalarString(t, members[r.key]) == Some(r.value)
  }

  /** What one object's own members say: exact spellings decide if there are any. */
  ghost predicate Local(t: Text, members: map<string, Value>, field: string, want: string, r: Resolution) {
    var exact := Tier(t, members, field, want, true);
    Settles(t, members, if exact != {} then exact else Tier(t, members, field, want, false), r)
  }

  ghost predicate HasCandidate(t: Text, v: Value, want: string) {
    v.Object? && exists k :: Candidate(t, v.members, want, k)
  }

  lemma TiersAreCandidates(t: Text, members: map<string, Value>, field: string, want: string)
    ensures HasCandidate(t, Object(members), want)
      <==> Tier(t, members, field, want, true) != {} || Tier(t, members, field, want, false) != {}
  {
    hide NormalizeField;
    if HasCandidate(t, Object(members), want) {
      var k :| Candidate(t, members, want, k);
      assert k in Tier(t, members, field, want, t.equalFold(k, field));
    }
    if Tier(t, members, field, want, true) != {} {
      var k :| k in Tier(t, members, field, want, true);
      assert Candidate(t, members, want, k);
    }
    if Tier(t, members, field, want, false) != {} {
      var k :| k in Tier(t, members, field, want, false);
      assert Candidate(t, members, want, k);
    }
  }

  /** All parts of a value: itself, then its children's parts, members by name. */
  ghost function Parts(v: Value): seq<Value>
    decreases v, 1, 0
  {
    [v] + PartsOf(v, Kids(v))
  }

  ghost function PartsOf(v: Value, kids: seq<Kid>): seq<Value>
    requires forall i :: 0 <= i < |kids| ==> kids[i].value < v
    decreases v, 0, |kids|
  {
    if kids == [] then [] else PartsOf(v, kids[..|kids| - 1]) + Parts(kids[|kids| - 1].value)
  }

  /** The answer is that of the first part with a candidate of its own, or nothing. */
  ghost predicate Answers(t: Text, parts: seq<Value>, field: string, want: string, r: Resolution) {
    if Silent(t, parts, want) then r.Missing? else exists i :: AnswersAt(t, parts, field, want, i, r)
  }

  ghost predicate Silent(t: Text, parts: seq<Value>, want: string) {
    forall i :: 0 <= i < |parts| ==> !HasCandidate(t, parts[i], want)
  }

  ghost predicate FirstWith(t: Text, parts: seq<Value>, want: string, i: int) {
    && 0 <= i < |parts| && parts[i].Object? && HasCandidate(t, parts[i], want)
    && forall j :: 0 <= j < i ==> !HasCandidate(t, parts[j], want)
  }

  ghost predicate AnswersAt(t: Text, parts: seq<Value>, field: string, want: string, i: int, r: Resolution) {
    FirstWith(t, parts, want, i) && Local(t, parts[i].members, field, want, r)
  }

  // Parts without a candidate before, and parts after the answer, change nothing.
  lemma AnswerStands(t: Text, a: seq<Value>, b: seq<Value>, c: seq<Value>, field: string, want: string, r: Resolution)
    requires Silent(t, a, want) && Answers(t, b, field, want, r) && !Silent(t, b, want)
    ensures Answers(t, a + b + c, field, want, r) && !r.Missing?
  {
    hide HasCandidate, Local;
    var all := a + b + c;
    var i :| AnswersAt(t, b, field, want, i, r);
    assert all[|a| + i] == b[i];
    forall j | 0 <= j < |a| + i
      ensures !HasCandidate(t, all[j], want)
    {
      assert all[j] == if j < |a| then a[j] else b[j - |a|];
    }
    assert AnswersAt(t, all, field, want, |a| + i, r);
    LocalDecides(t, b[i].members, field, want, r);
    ObjectAgain(t, b[i], want);
  }

  lemma ObjectAgain(t: Text, v: Value, want: string)
    requires HasCandidate(t, v, want)
    ensures v.Object? && HasCandidate(t, Object(v.members), want)
  {
  }

  lemma LocalDecides(t: Text, members: map<string, Value>, field: string, want: string, r: Resolution)
    requires Local(t, members, field, want, r)
    ensures r.Missing? <==> !HasCandidate(t, Object(members), want)
  {
    hide Candidate, Agreed;
    TiersAreCandidates(t, members, field, want);
  }

  lemma SilentConcat(t: Text, a: seq<Value>, b: seq<Value>, want: string)
    ensures Silent(t, a + b, want) <==> Silent(t, a, want) && Silent(t, b, want)
  {
    hide HasCandidate;
    assert forall i :: 0 <= i < |a| ==> (a + b)[i] == a[i];
    assert forall i :: 0 <= i < |b| ==> (a + b)[|a| + i] == b[i];
  }

  /** There is at most one answer, so the order in which members are enumerated cannot matter. */
  lemma OneAnswer(t: Text, parts: seq<Value>, field: string, want: string, r: Resolution, s: Resolution)
    requires Answers(t, parts, field, want, r) && Answers(t, parts, field, want, s)
    ensures r == s
  {
    hide HasCandidate, Local;
    if !Silent(t, parts, want) {
      var i :| AnswersAt(t, parts, field, want, i, r);
      var j :| AnswersAt(t, parts, field, want, j, s);
      assert i == j;
      OneLocal(t, parts[i].members, field, want, r, s);
    }
  }

  lemma OneLocal(t: Text, members: map<string, Value>, field: string, want: string, r: Resolution, s: Resolution)
    requires Local(t, members, field, want, r) && Local(t, members, field, want, s)
    ensures r == s
  {
    hide Candidate, Less;
    if r.Found? && s.Found? && r.key != s.key {
      LessIsStrict(r.key, s.key);
    }
  }

  /** Picks the first name of a tier and checks that the others agree. */
  method Settle(t: Text, members: map<string, Value>, names: seq<string>,
      ghost tier: set<string>) returns (r: Resolution)
    requires Sorted(names) && Lists(names, tier) && forall k :: k in tier ==>
      k in members && ScalarString(t, members[k]).Some?
    ensures Settles(t, members, tier, r)
  {
    hide ScalarString;
    EmptyLists(names, tier);
    if names == [] {
      return Missing;
    }
    FirstIsLeast(names, tier);
    var value := ScalarString(t, members[names[0]]).value;
    for i := 1 to |names|
      invariant forall k :: 0 <= k < i ==> ScalarString(t, members[names[k]]) == Some(value)
    {
      assert names[i] in names;
      if ScalarString(t, members[names[i]]).value != value {
        assert names[0] in tier && names[i] in tier;
        return Ambiguous;
      }
    }
    forall k | k in tier
      ensures ScalarString(t, members[k]) == Some(value)
    {
      assert k in names;
    }
    return Found(names[0], value);
  }

  method FindLocal(t: Text, members: map<string, Value>, field: string, want: string) returns (r: Resolution)
    requires AgreesOnAscii(t.lower)
    ensures Local(t, members, field, want, r)
  {
    hide NormalizeField, AgreesOnAscii, ScalarString, Less, Settles;
    var keys := SortNames(members.Keys);
    var exact: seq<string>, normalized: seq<string> := [], [];
    for i := 0 to |keys|
      invariant Picked(keys, exact, i, Tier(t, members, field, want, true))
      invariant Picked(keys, normalized, i, Tier(t, members, field, want, false))
    {
      assert keys[i] in keys;
      var matches := MatchesNormalized(t.lower, keys[i], want);
      if ScalarString(t, members[keys[i]]).None? || !matches {
        PickedSkips(keys, exact, i, Tier(t, members, field, want, true));
        PickedSkips(keys, normalized, i, Tier(t, members, field, want, false));
      } else if t.equalFold(keys[i], field) {
        PickedTakes(keys, exact, i, Tier(t, members, field, want, true));
        PickedSkips(keys, normalized, i, Tier(t, members, field, want, false));
        exact := exact + [keys[i]];
      } else {
        PickedSkips(keys, exact, i, Tier(t, members, field, want, true));
        PickedTakes(keys, normalized, i, Tier(t, members, field, want, false));
        normalized := normalized + [keys[i]];
      }
    }
    PickedAll(keys, exact, Tier(t, members, field, want, true), members.Keys);
    PickedAll(keys, normalized, Tier(t, members, field, want, false), members.Keys);
    if |exact| == 0 {
      r := Settle(t, members, normalized, Tier(t, members, field, want, false));
    } else {
      r := Settle(t, members, exact, Tier(t, members, field, want, true));
    }
  }

  /** picked lists, in order, those of the first i keys that belong to the tier. */
  ghost predicate Picked(keys: seq<string>, picked: seq<string>, i: nat, tier: set<string>) {
    && i <= |keys| && Sorted(picked)
    && forall k :: k in picked <==> k in keys[..i] && k in tier
  }

  lemma PickedSkips(keys: seq<string>, picked: seq<string>, i: nat, tier: set<string>)
    requires Picked(keys, picked, i, tier) && i < |keys| && keys[i] !in tier
    ensures Picked(keys, picked, i + 1, tier)
  {
    hide Less;
    assert keys[..i + 1] == keys[..i] + [keys[i]];
  }

  lemma PickedTakes(keys: seq<string>, picked: seq<string>, i: nat, tier: set<string>)
    requires Picked(keys, picked, i, tier) && i < |keys| && keys[i] in tier && Sorted(keys)
    ensures Picked(keys, picked + [keys[i]], i + 1, tier)
  {
    hide Less;
    assert keys[..i + 1] == keys[..i] + [keys[i]];
    forall j | 0 <= j < |picked|
      ensures Less(picked[j], keys[i])
    {
      assert picked[j] in picked;
      var k :| 0 <= k < i && keys[..i][k] == picked[j];
      assert keys[k] == picked[j];
    }
  }

  lemma PickedAll(keys: seq<string>, picked: seq<string>, tier: set<string>, all: set<string>)
    requires Picked(keys, picked, |keys|, tier) && Lists(keys, all) && tier <= all
    ensures Lists(picked, tier) && (picked == [] <==> tier == {})
  {
    hide Less;
    assert keys[..|keys|] == keys;
    forall k
      ensures k in picked <==> k in tier
    {
      assert k in tier ==> k in all;
    }
    EmptyLists(picked, tier);
  }

  /** Main result: the search returns the answer of the first part that has one. */
  method FindScalar(t: Text, v: Value, field: string, want: string) returns (r: Resolution)
    requires AgreesOnAscii(t.lower)
    ensures Answers(t, Parts(v), field, want, r) && (r.Missing? <==> Silent(t, Parts(v), want))
    decreases v
  {
    hide Local, HasCandidate, Parts, PartsOf, Kids, AgreesOnAscii, Answers, SortedKeys;
    PartsUnfold(v);
    ghost var kids := Kids(v);
    NoPartsYet(v);
    if v.Object? {
      r := FindLocal(t, v.members, field, want);
      OwnAnswer(t, v, field, want, r);
      if !r.Missing? {
        AnswerStands(t, [], [v], PartsOf(v, kids), field, want, r);
        assert [] + [v] + PartsOf(v, kids) == Parts(v);
        AnswerNotSilent(t, Parts(v), field, want, r);
        return r;
      }
      var keys := SortNames(v.members.Keys);
      MemberKids(v);
      for i := 0 to |keys|
        invariant Silent(t, [v] + PartsOf(v, kids[..i]), want)
      {
        assert keys[i] in keys && kids[i].value == v.members[keys[i]];
        r := FindScalar(t, v.members[keys[i]], field, want);
        SearchStep(t, v, kids, i, field, want, r);
        if !r.Missing? {
          AnswerNotSilent(t, Parts(v), field, want, r);
          return r;
        }
      }
      assert kids[..|keys|] == kids;
    } else if v.Array? {
      ItemKids(v);
      NotObject(t, v, want);
      for i := 0 to |v.items|
        invariant Silent(t, [v] + PartsOf(v, kids[..i]), want)
      {
        r := FindScalar(t, v.items[i], field, want);
        SearchStep(t, v, kids, i, field, want, r);
        if !r.Missing? {
          AnswerNotSilent(t, Parts(v), field, want, r);
          return r;
        }
      }
      assert kids[..|v.items|] == kids;
    } else {
      NoKids(v, "");
      NotObject(t, v, want);
    }
    r := Missing;
    NothingFound(t, Parts(v), field, want);
  }

  lemma PartsUnfold(v: Value)
    ensures Parts(v) == [v] + PartsOf(v, Kids(v))
  {
  }

  lemma NoPartsYet(v: Value)
    ensures PartsOf(v, []) == [] && [v] + [] == [v]
  {
  }

  lemma NotObject(t: Text, v: Value, want: string)
    requires !v.Object?
    ensures Silent(t, [v], want)
  {
  }

  lemma OwnAnswer(t: Text, v: Value, field: string, want: string, r: Resolution)
    requires v.Object? && Local(t, v.members, field, want, r)
    ensures r.Missing? <==> Silent(t, [v], want)
    ensures !r.Missing? ==> Answers(t, [v], field, want, r)
  {
    hide HasCandidate, Local;
    LocalDecides(t, v.members, field, want, r);
    assert v == Object(v.members);
    if !r.Missing? {
      assert HasCandidate(t, [v][0], want);
      assert AnswersAt(t, [v], field, want, 0, r);
    }
  }

  lemma NothingFound(t: Text, parts: seq<Value>, field: string, want: string)
    requires Silent(t, parts, want)
    ensures Answers(t, parts, field, want, Missing)
  {
    hide HasCandidate;
  }

  lemma AnswerNotSilent(t: Text, parts: seq<Value>, field: string, want: string, r: Resolution)
    requires Answers(t, parts, field, want, r) && !r.Missing?
    ensures !Silent(t, parts, want)
  {
    hide HasCandidate, Local;
  }

  // One child searched: either it stays silent or its answer is the whole value's.
  lemma SearchStep(t: Text, v: Value, kids: seq<Kid>, i: nat, field: string, want: string, r: Resolution)
    requires kids == Kids(v) && i < |kids|
    requires Silent(t, [v] + PartsOf(v, kids[..i]), want)
    requires Answers(t, Parts(kids[i].value), field, want, r) && (r.Missing? <==> Silent(t, Parts(kids[i].value), want))
    ensures r.Missing? ==> Silent(t, [v] + PartsOf(v, kids[..i + 1]), want)
    ensures !r.Missing? ==> Answers(t, Parts(v), field, want, r)
  {
    hide HasCandidate, Local, Answers, Silent, Kids, Parts;
    var done, part := PartsOf(v, kids[..i]), Parts(kids[i].value);
    assert kids[..i + 1][..i] == kids[..i] && kids[..i + 1][i] == kids[i];
    assert PartsOf(v, kids[..i + 1]) == done + part;
    Associates([v], done, part);
    if r.Missing? {
      SilentConcat(t, [v] + done, part, want);
    } else {
      var rest := LaterParts(v, kids, i + 1);
      PartsUnfold(v);
      AnswerStands(t, [v] + done, part, rest, field, want, r);
      Associates([v], done + part, rest);
      assert ([v] + done) + part + rest == Parts(v);
    }
  }

  lemma {:induction false} LaterParts(v: Value, kids: seq<Kid>, i: nat) returns (rest: seq<Value>)
    requires i <= |kids| && forall k :: 0 <= k < |kids| ==> kids[k].value < v
    ensures PartsOf(v, kids) == PartsOf(v, kids[..i]) + rest
    decreases |kids|
  {
    hide Parts;
    if i == |kids| {
      rest := [];
      assert kids[..i] == kids && PartsOf(v, kids) + [] == PartsOf(v, kids);
    } else {
      var n := |kids| - 1;
      var more := LaterParts(v, kids[..n], i);
      assert kids[..n][..i] == kids[..i];
      rest := more + Parts(kids[n].value);
      Associates(PartsOf(v, kids[..i]), more, Parts(kids[n].value));
    }
  }

  lemma FoundIsSomewhere(t: Text, parts: seq<Value>, field: string, want: string, r: Resolution)
    requires Answers(t, parts, field, want, r) && !r.Missing?
    ensures exists i: nat :: AnswersAt(t, parts, field, want, i, r)
  {
    hide HasCandidate, Local;
    var i :| AnswersAt(t, parts, field, want, i, r);
  }

  /** What a found field is: a scalar of the first object that has a candidate, spelled exactly if
      that object spells any candidate exactly, with the value all its rivals there share. */
  lemma FoundMeans(t: Text, v: Value, field: string, want: string, r: Resolution) returns (i: nat)
    requires Answers(t, Parts(v), field, want, r) && r.Found?
    ensures var parts := Parts(v);
      && FirstWith(t, parts, want, i)
      && Candidate(t, parts[i].members, want, r.key) && ScalarString(t, parts[i].members[r.key]) == Some(r.value)
      && forall k ::
           Candidate(t, parts[i].members, want, k) && (t.equalFold(k, field) || !t.equalFold(r.key, field)) ==>
           && t.equalFold(k, field) == t.equalFold(r.key, field)
           && ScalarString(t, parts[i].members[k]) == Some(r.value)
  {
    hide NormalizeField, Parts, ScalarString, Less;
    var parts := Parts(v);
    FoundIsSomewhere(t, parts, field, want, r);
    i :| i >= 0 && AnswersAt(t, parts, field, want, i, r);
    var members := parts[i].members;
    forall k | Candidate(t, members, want, k) && (t.equalFold(k, field) || !t.equalFold(r.key, field))
      ensures t.equalFold(k, field) == t.equalFold(r.key, field) && ScalarString(t, members[k]) == Some(r.value)
    {
      assert k in Tier(t, members, field, want, t.equalFold(k, field));
    }
  }
}
