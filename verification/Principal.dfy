/** Preflight principals: scalars expected at dotted paths of a decoded body, and exactly which
    expectations some body can meet. */
module Principal {
  import opened Basics
  import opened Json
  import Pointer

  const MAX_OPEN := 10000

  // ----- Dotted paths into a value -----

  function Parts(path: string): (parts: seq<string>)
    ensures parts != []
  {
    Pointer.Split(path, '.')
  }

  /** Only objects are entered, and only under exactly the key named. */
  function Select(v: Value, parts: seq<string>): Option<Value> {
    if parts == [] then Some(v)
    else if v.Object? && parts[0] in v.members then Select(v.members[parts[0]], parts[1..])
    else None
  }

  /** Scalars as they are written; null, arrays and objects are no scalars. */
  function ScalarText(v: Value): Option<string> {
    match v
    case String(s) => Some(s)
    case Num(text) => Some(text)
    case Bool(b) => Some(if b then "true" else "false")
    case _ => None
  }

  function TextAt(v: Value, path: string): Option<string> {
    var found :- Select(v, Parts(path));
    ScalarText(found)
  }

  /** One document of any size with nothing behind it; a repeated key counts with its last value. */
  function Document(body: Raw): Option<Value> {
    if body.Absent? then None
    else
      var (v, rest) :- Parse(STANDARD_MODE, body.tokens, 0);
      if rest == [] then Some(v) else None
  }

  predicate Matches(body: Raw, fields: map<string, string>) {
    var document := Document(body);
    document.Some? && forall path :: path in fields ==> TextAt(document.value, path) == Some(fields[path])
  }

  /** Fields in whatever order the map yields them, each path walked part by part. */
  method MatchesPrincipal(body: Raw, fields: map<string, string>) returns (ok: bool)
    ensures ok <==> Matches(body, fields)
  {
    if body.Absent? {
      return false;
    }
    var decoded := Parse(STANDARD_MODE, body.tokens, 0);
    if decoded.None? || decoded.value.1 != [] {
      return false;
    }
    var data := decoded.value.0;
    var pending := fields.Keys;
    while pending != {}
      invariant pending <= fields.Keys
      invariant forall path :: path in fields && path !in pending ==> TextAt(data, path) == Some(fields[path])
      decreases pending
    {
      var path :| path in pending;
      pending := pending - {path};
      var v := data;
      var parts := Parts(path);
      for i := 0 to |parts|
        invariant Select(data, parts) == Select(v, parts[i..])
      {
        assert parts[i..][1..] == parts[i + 1..];
        if !v.Object? || parts[i] !in v.members {
          return false;
        }
        v := v.members[parts[i]];
      }
      assert parts[|parts|..] == [];
      var got := ScalarText(v);
      if got.None? || got.value != fields[path] {
        return false;
      }
    }
    return true;
  }

  // ----- Which fields some body matches -----

  ghost predicate Satisfiable(fields: map<string, string>) {
    exists body :: Matches(body, fields)
  }

  ghost function SomeBody(fields: map<string, string>): (body: Raw)
    requires Satisfiable(fields)
    ensures Matches(body, fields)
  {
    var body :| Matches(body, fields);
    body
  }

  /** No path is deeper than a document can be, and none leads through the scalar another names. */
  predicate Compatible(fields: map<string, string>) {
    && (forall path :: path in fields ==> |Parts(path)| <= MAX_OPEN)
    && forall p, q :: p in fields && q in fields ==> !(p + "." <= q)
  }

  lemma {:induction false} SelectConcat(v: Value, a: seq<string>, b: seq<string>)
    ensures Select(v, a + b) == (var inner := Select(v, a); if inner.None? then None else Select(inner.value, b))
    decreases |a|
  {
    if a == [] {
      assert a + b == b;
    } else if v.Object? && a[0] in v.members {
      assert (a + b)[1..] == a[1..] + b;
      SelectConcat(v.members[a[0]], a[1..], b);
    }
  }

  lemma ThroughScalar(v: Value, p: string, q: string)
    requires TextAt(v, p).Some? && p + "." <= q
    ensures TextAt(v, q).None?
  {
    var rest := q[|p| + 1..];
    assert q == p + (['.'] + rest);
    Pointer.SplitConcat(p, rest, '.');
    SelectConcat(v, Parts(p), Parts(rest));
  }

  /** A path into a document opens one container per part. */
  lemma {:induction false} SelectedIsWithin(d: Doc, depth: nat, parts: seq<string>)
    requires Acceptable(STANDARD_MODE, d, depth) && depth <= MAX_OPEN
    requires Select(Meaning(STANDARD_MODE, d), parts).Some?
    ensures depth + |parts| <= MAX_OPEN
    decreases |parts|
  {
    if parts != [] {
      MembersMeaningFrom(STANDARD_MODE, d.members, map[], parts[0]);
      var v := MembersMeaning(STANDARD_MODE, d.members, map[])[parts[0]];
      var i :| 0 <= i < |d.members| && v == Meaning(STANDARD_MODE, d.members[i].value);
      SelectedIsWithin(d.members[i].value, depth + 1, parts[1..]);
    }
  }

  lemma MatchedIsCompatible(body: Raw, fields: map<string, string>)
    requires Matches(body, fields)
    ensures Compatible(fields)
  {
    hide TextAt, ScalarText, Select;
    var v := Document(body).value;
    var d := ParseSound(STANDARD_MODE, body.tokens, 0);
    forall path | path in fields
      ensures |Parts(path)| <= MAX_OPEN
    {
      assert TextAt(v, path) == Some(fields[path]);
      TextIsSelected(v, path);
      SelectedIsWithin(d, 0, Parts(path));
    }
    forall p, q | p in fields && q in fields && p + "." <= q
      ensures false
    {
      assert TextAt(v, p) == Some(fields[p]) && TextAt(v, q) == Some(fields[q]);
      ThroughScalar(v, p, q);
    }
  }

  lemma TextIsSelected(v: Value, path: string)
    ensures TextAt(v, path).Some? ==> Select(v, Parts(path)).Some?
  {
  }

  // ----- A body for any compatible fields -----

  ghost predicate PrefixFree(paths: set<seq<string>>) {
    forall a, b :: a in paths && b in paths && a <= b ==> a == b
  }

  /** The texts below one key, and those elsewhere. */
  ghost function Below(m: map<seq<string>, string>, key: string): map<seq<string>, string>
    requires [] !in m
  {
    map rest | rest in (set p | p in m && p[0] == key :: p[1..]) && [key] + rest in m :: m[[key] + rest]
  }

  ghost function Elsewhere(m: map<seq<string>, string>, key: string): map<seq<string>, string>
    requires [] !in m
  {
    map p | p in m && p[0] != key :: m[p]
  }

  lemma BelowHas(m: map<seq<string>, string>, key: string, p: seq<string>)
    requires [] !in m && p in m && p[0] == key
    ensures p[1..] in Below(m, key) && Below(m, key)[p[1..]] == m[p]
  {
    assert [key] + p[1..] == p;
  }

  lemma Fewer(m: map<seq<string>, string>, first: seq<string>)
    requires [] !in m && first in m
    ensures var others := Elsewhere(m, first[0]);
      && |others| < |m| && (PrefixFree(m.Keys) ==> PrefixFree(others.Keys))
      && (forall p :: p in others ==> p in m && p[0] != first[0] && others[p] == m[p])
      && (forall p :: p in m && p[0] != first[0] ==> p in others)
  {
    var others := Elsewhere(m, first[0]);
    var gone := m.Keys - others.Keys;
    assert first in gone;
    assert m.Keys == others.Keys + gone;
  }

  lemma NothingRealized(depth: nat)
    requires depth < MAX_OPEN
    ensures Acceptable(STANDARD_MODE, ObjectDoc([]), depth)
  {
  }

  // A member appended last decides about its key, whatever was there before.
  lemma {:induction false} AppendedMeaning(members: seq<Member>, last: Member, acc: map<string, Value>)
    ensures MembersMeaning(STANDARD_MODE, members + [last], acc)
         == MembersMeaning(STANDARD_MODE, members, acc)[last.key := Meaning(STANDARD_MODE, last.value)]
    decreases |members|
  {
    var all := members + [last];
    if members == [] {
      assert all == [last] && all[1..] == [];
    } else {
      assert all[0] == members[0] && all[1..] == members[1..] + [last];
      AppendedMeaning(members[1..], last, acc[members[0].key := Meaning(STANDARD_MODE, members[0].value)]);
    }
  }

  lemma ExtendedMeaning(members: seq<Member>, key: string, inner: Doc, depth: nat)
    ensures var rest, d := ObjectDoc(members), ObjectDoc(members + [Member(key, inner)]);
      && Meaning(STANDARD_MODE, rest).Object?
      && Meaning(STANDARD_MODE, d)
         == Object(Meaning(STANDARD_MODE, rest).members[key := Meaning(STANDARD_MODE, inner)])
      && (Acceptable(STANDARD_MODE, rest, depth) && Acceptable(STANDARD_MODE, inner, depth + 1) ==>
            Acceptable(STANDARD_MODE, d, depth))
  {
    var all := members + [Member(key, inner)];
    AppendedMeaning(members, Member(key, inner), map[]);
    if Acceptable(STANDARD_MODE, ObjectDoc(members), depth) && Acceptable(STANDARD_MODE, inner, depth + 1) {
      forall i | 0 <= i < |all|
        ensures Acceptable(STANDARD_MODE, all[i].value, depth + 1)
      {
        if i < |members| {
          assert all[i] == members[i] && AllMembers(STANDARD_MODE, members, depth + 1);
        } else {
          assert all[i].value == inner;
        }
      }
      assert AllMembers(STANDARD_MODE, all, depth + 1);
    }
  }

  lemma Extended(m: map<seq<string>, string>, key: string, depth: nat, rest: Doc, inner: Doc)
    requires [] !in m && depth < MAX_OPEN && rest.ObjectDoc?
    requires Acceptable(STANDARD_MODE, rest, depth) && Acceptable(STANDARD_MODE, inner, depth + 1)
    requires forall p :: p in m && p[0] != key ==> Select(Meaning(STANDARD_MODE, rest), p) == Some(String(m[p]))
    requires forall p :: p in m && p[0] == key ==> Select(Meaning(STANDARD_MODE, inner), p[1..]) == Some(String(m[p]))
    ensures var d := ObjectDoc(rest.members + [Member(key, inner)]);
      && Acceptable(STANDARD_MODE, d, depth)
      && forall p :: p in m ==> Select(Meaning(STANDARD_MODE, d), p) == Some(String(m[p]))
  {
    hide Meaning, MembersMeaning, Acceptable;
    var v, w := Meaning(STANDARD_MODE, rest), Meaning(STANDARD_MODE, inner);
    var d := ObjectDoc(rest.members + [Member(key, inner)]);
    ExtendedMeaning(rest.members, key, inner, depth);
    forall p | p in m
      ensures Select(Meaning(STANDARD_MODE, d), p) == Some(String(m[p]))
    {
      if p[0] != key {
        assert Select(v, p) == Some(String(m[p]));
      } else {
        assert Select(w, p[1..]) == Some(String(m[p]));
      }
    }
  }

  // A path that ends here is the only one with this key.
  lemma LeafBelow(m: map<seq<string>, string>, key: string, depth: nat) returns (d: Doc)
    requires [] !in m && [key] in m && PrefixFree(m.Keys)
    ensures Acceptable(STANDARD_MODE, d, depth + 1)
    ensures forall p :: p in m && p[0] == key ==> Select(Meaning(STANDARD_MODE, d), p[1..]) == Some(String(m[p]))
  {
    d := Scalar(StringToken(m[[key]]));
    forall p | p in m && p[0] == key
      ensures p == [key]
    {
      assert [key] <= p;
    }
  }

  lemma BelowFacts(m: map<seq<string>, string>, key: string)
    requires [] !in m && [key] !in m && PrefixFree(m.Keys)
    ensures PrefixFree(Below(m, key).Keys)
    ensures forall rest :: rest in Below(m, key) ==> rest != [] && [key] + rest in m
  {
    forall a, b | a in Below(m, key) && b in Below(m, key) && a <= b
      ensures a == b
    {
      assert [key] + a <= [key] + b;
      assert ([key] + a)[1..] == a && ([key] + b)[1..] == b;
    }
    assert [key] + [] == [key];
  }

  /** A document with every text below this key at the rest of its path. */
  lemma {:induction false} RealizeBelow(m: map<seq<string>, string>, key: string, depth: nat,
      room: nat) returns (d: Doc)
    requires depth < MAX_OPEN && depth + room <= MAX_OPEN && PrefixFree(m.Keys)
    requires forall p :: p in m ==> 1 <= |p| <= room
    requires exists p :: p in m && p[0] == key
    ensures Acceptable(STANDARD_MODE, d, depth + 1)
    ensures forall p :: p in m && p[0] == key ==> Select(Meaning(STANDARD_MODE, d), p[1..]) == Some(String(m[p]))
    decreases room, 0
  {
    hide Select, Meaning, Acceptable, Below, PrefixFree;
    if [key] in m {
      d := LeafBelow(m, key, depth);
    } else {
      BelowFacts(m, key);
      forall rest | rest in Below(m, key)
        ensures 1 <= |rest| <= room - 1
      {
        assert [key] + rest in m;
      }
      var long :| long in m && long[0] == key;
      assert |long| == 1 ==> long == [key];
      d := Realize(Below(m, key), depth + 1, room - 1);
      forall p | p in m && p[0] == key
        ensures Select(Meaning(STANDARD_MODE, d), p[1..]) == Some(String(m[p]))
      {
        BelowHas(m, key, p);
      }
    }
  }

  /** An object with every text at its path. */
  lemma {:induction false} Realize(m: map<seq<string>, string>, depth: nat, room: nat) returns (d: Doc)
    requires depth < MAX_OPEN && depth + room <= MAX_OPEN && PrefixFree(m.Keys)
    requires forall p :: p in m ==> 1 <= |p| <= room
    ensures d.ObjectDoc? && Acceptable(STANDARD_MODE, d, depth)
    ensures forall p :: p in m ==> Select(Meaning(STANDARD_MODE, d), p) == Some(String(m[p]))
    decreases room, |m|
  {
    hide Select, Meaning, Acceptable, Elsewhere, PrefixFree;
    if m == map[] {
      d := ObjectDoc([]);
      NothingRealized(depth);
    } else {
      var first :| first in m;
      var key := first[0];
      var others := Elsewhere(m, key);
      Fewer(m, first);
      var rest := Realize(others, depth, room);
      var inner := RealizeBelow(m, key, depth, room);
      d := ObjectDoc(rest.members + [Member(key, inner)]);
      Extended(m, key, depth, rest, inner);
    }
  }

  function PathOf(parts: seq<string>): string
    requires parts != []
  {
    Pointer.Joined(parts, '.')
  }

  lemma PathOfParts(path: string)
    ensures PathOf(Parts(path)) == path
  {
    Pointer.SplitPieces(path, '.');
  }

  lemma {:induction false} PathOfConcat(a: seq<string>, b: seq<string>)
    requires a != [] && b != []
    ensures PathOf(a) + "." <= PathOf(a + b)
    decreases |a|
  {
    assert (a + b)[1..] == a[1..] + b;
    if |a| > 1 {
      PathOfConcat(a[1..], b);
    }
  }

  ghost function ByParts(fields: map<string, string>): map<seq<string>, string> {
    map parts | parts in (set path | path in fields :: Parts(path)) && PathOf(parts) in fields :: fields[PathOf(parts)]
  }

  lemma ByPartsIsPrefixFree(fields: map<string, string>)
    requires Compatible(fields)
    ensures PrefixFree(ByParts(fields).Keys)
    ensures forall parts :: parts in ByParts(fields) ==> 1 <= |parts| <= MAX_OPEN
  {
    hide PathOf;
    var m := ByParts(fields);
    forall a, b | a in m && b in m && a <= b
      ensures a == b
    {
      if a != b {
        assert a + b[|a|..] == b;
        PathOfConcat(a, b[|a|..]);
      }
    }
    forall parts | parts in m
      ensures 1 <= |parts| <= MAX_OPEN
    {
      var path :| path in fields && Parts(path) == parts;
    }
  }

  /** A body for compatible fields. */
  lemma Matched(fields: map<string, string>) returns (body: Raw)
    requires Compatible(fields)
    ensures Matches(body, fields)
  {
    hide Select, Acceptable, Meaning, Parts, PathOf, Print, PrefixFree;
    ByPartsIsPrefixFree(fields);
    var d := Realize(ByParts(fields), 0, MAX_OPEN);
    body := Raw(true, Print(d));
    assert Print(d) + [] == Print(d);
    ParsePrint(STANDARD_MODE, d, 0, []);
    forall path | path in fields
      ensures TextAt(Meaning(STANDARD_MODE, d), path) == Some(fields[path])
    {
      PathOfParts(path);
      assert Parts(path) in ByParts(fields);
    }
  }

  /** Main result: some body matches the fields exactly when no path followed by a dot begins
      another and no path has more parts than a document has levels. */
  lemma SatisfiableIff(fields: map<string, string>)
    ensures Satisfiable(fields) <==> Compatible(fields)
  {
    if body :| Matches(body, fields) {
      MatchedIsCompatible(body, fields);
    }
    if Compatible(fields) {
      var body := Matched(fields);
    }
  }

  /** Fields that pass every check made of them one by one, and that no body can match. */
  lemma ClashingFields()
    ensures !Satisfiable(map["user" := "1", "user.id" := "1"])
  {
    SatisfiableIff(map["user" := "1", "user.id" := "1"]);
    var fields := map["user" := "1", "user.id" := "1"];
    assert "user" in fields && "user.id" in fields && "user" + "." <= "user.id";
  }
}
