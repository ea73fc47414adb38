/** Value-free descriptions of response bodies: one token per path and type, collected by a
    walk that stops at a size and a depth. */
module Profiles {
  import opened Json
  import opened Sorting

  const MAX_FIELDS := 2048
  const MAX_DEPTH := 64

  function KindOf(v: Value): string {
    match v
    case Object(_) => "object"
    case Array(_) => "array"
    case String(_) => "string"
    case Num(_) => "number"
    case Bool(_) => "boolean"
    case Null => "null"
  }

  function TokenOf(path: string, v: Value): string {
    path + ":" + KindOf(v)
  }

  // ----- What a complete profile holds -----

  /** Every path of the value with the type found there. */
  ghost function Tokens(v: Value, path: string): set<string> {
    {TokenOf(path, v)}
    + match v
      case Object(members) => set k, t | k in members && t in Tokens(members[k], path + "." + k) :: t
      case Array(items) => set i, t | 0 <= i < |items| && t in Tokens(items[i], path + "[]") :: t
      case _ => {}
  }

  ghost function Paths(v: Value, path: string): set<string> {
    {path}
    + match v
      case Object(members) => set k, t | k in members && t in Paths(members[k], path + "." + k) :: t
      case Array(items) => set i, t | 0 <= i < |items| && t in Paths(items[i], path + "[]") :: t
      case _ => {}
  }

  /** No part of the value lies more than n levels down. */
  ghost predicate Shallow(v: Value, n: int) {
    && n >= 0
    && match v
       case Object(members) => forall k :: k in members ==> Shallow(members[k], n - 1)
       case Array(items) => forall i :: 0 <= i < |items| ==> Shallow(items[i], n - 1)
       case _ => true
  }

  // ----- The walk, as the list of nodes it would visit -----

  datatype Node = Node(token: string, depth: int)

  datatype Kid = Kid(suffix: string, value: Value)

  /** Children in visiting order: members by name, array elements by index. */
  ghost function Kids(v: Value): (kids: seq<Kid>)
    ensures forall i :: 0 <= i < |kids| ==> kids[i].value < v
  {
    match v
    case Object(members) =>
      var keys := SortedKeys(members.Keys);
      assert forall i :: 0 <= i < |keys| ==> keys[i] in keys;
      seq(|keys|, i requires 0 <= i < |keys| => Kid("." + keys[i], members[keys[i]]))
    case Array(items) => seq(|items|, i requires 0 <= i < |items| => Kid("[]", items[i]))
    case _ => []
  }

  ghost function Visit(v: Value, path: string, depth: int): seq<Node>
    decreases v, 1, 0
  {
    [Node(TokenOf(path, v), depth)] + VisitKids(v, Kids(v), path, depth + 1)
  }

  ghost function VisitKids(v: Value, kids: seq<Kid>, path: string, depth: int): seq<Node>
    requires forall i :: 0 <= i < |kids| ==> kids[i].value < v
    decreases v, 0, |kids|
  {
    if kids == [] then []
    else
      var n := |kids| - 1;
      VisitKids(v, kids[..n], path, depth) + Visit(kids[n].value, path + kids[n].suffix, depth)
  }

  ghost function TokenSet(nodes: seq<Node>): set<string> {
    set n | n in nodes :: n.token
  }

  /** At every node there is still room for a token and the depth is within bounds. */
  ghost predicate Roomy(nodes: seq<Node>, seen: set<string>) {
    nodes == [] ||
    (nodes[0].depth <= MAX_DEPTH && |seen| < MAX_FIELDS && Roomy(nodes[1..], seen + {nodes[0].token}))
  }

  lemma FirstToken(nodes: seq<Node>)
    requires nodes != []
    ensures TokenSet(nodes) == {nodes[0].token} + TokenSet(nodes[1..])
  {
    assert nodes == [nodes[0]] + nodes[1..];
  }

  lemma {:induction false} RoomyConcat(a: seq<Node>, b: seq<Node>, seen: set<string>)
    ensures Roomy(a + b, seen) <==> Roomy(a, seen) && Roomy(b, seen + TokenSet(a))
  {
    if a == [] {
      assert a + b == b && seen + TokenSet([]) == seen;
    } else {
      hide TokenSet;
      RoomyConcat(a[1..], b, seen + {a[0].token});
      assert (a + b)[0] == a[0] && (a + b)[1..] == a[1..] + b;
      FirstToken(a);
      assert seen + TokenSet(a) == (seen + {a[0].token}) + TokenSet(a[1..]);
    }
  }

  ghost predicate DepthsWithin(nodes: seq<Node>) {
    forall n :: n in nodes ==> n.depth <= MAX_DEPTH
  }

  /** Room throughout means nothing too deep and at most the full size; staying below the full
      size is enough. */
  lemma {:induction false} RoomyBounds(nodes: seq<Node>, seen: set<string>)
    ensures Roomy(nodes, seen) ==> DepthsWithin(nodes) && (nodes != [] ==> |seen + TokenSet(nodes)| <= MAX_FIELDS)
    ensures DepthsWithin(nodes) && |seen + TokenSet(nodes)| < MAX_FIELDS ==> Roomy(nodes, seen)
  {
    if nodes != [] {
      var more := seen + {nodes[0].token};
      RoomyBounds(nodes[1..], more);
      FirstToken(nodes);
      assert nodes == [nodes[0]] + nodes[1..];
      assert more + TokenSet(nodes[1..]) == seen + TokenSet(nodes);
      Growth(seen, nodes[0].token);
      Subset(seen, seen + TokenSet(nodes));
      if nodes[1..] == [] {
        assert seen + TokenSet(nodes) == more;
      }
    }
  }

  /** Room throughout, in one formula: nothing too deep, and before the last node fewer than the full
      number of different tokens. */
  lemma {:induction false} RoomyIff(nodes: seq<Node>, seen: set<string>)
    ensures Roomy(nodes, seen)
      <==> DepthsWithin(nodes) && (nodes != [] ==> |seen + TokenSet(nodes[..|nodes| - 1])| < MAX_FIELDS)
    decreases |nodes|
  {
    if nodes != [] {
      var more, rest := seen + {nodes[0].token}, nodes[1..];
      RoomyIff(rest, more);
      assert nodes == [nodes[0]] + rest;
      if rest == [] {
        assert seen + TokenSet(nodes[..0]) == seen;
      } else {
        var front := nodes[..|nodes| - 1];
        assert front[1..] == rest[..|rest| - 1] && front[0] == nodes[0];
        FirstToken(front);
        assert seen + TokenSet(front) == more + TokenSet(rest[..|rest| - 1]);
        Subset(seen, seen + TokenSet(front));
      }
    }
  }

  lemma Growth(s: set<string>, t: string)
    ensures |s + {t}| <= |s| + 1
  {
    if t in s {
      assert s + {t} == s;
    }
  }

  lemma Subset(a: set<string>, b: set<string>)
    requires a <= b
    ensures |a| <= |b|
  {
    assert b == a + (b - a);
  }

  // ----- The visited nodes are the parts of the value -----

  ghost function KidTokens(kids: seq<Kid>, path: string): set<string> {
    set i, t | 0 <= i < |kids| && t in Tokens(kids[i].value, path + kids[i].suffix) :: t
  }

  ghost predicate InMember(members: map<string, Value>, path: string, t: string) {
    exists k :: k in members && t in Tokens(members[k], path + "." + k)
  }

  ghost predicate InItem(items: seq<Value>, path: string, t: string) {
    exists i :: 0 <= i < |items| && t in Tokens(items[i], path + "[]")
  }

  ghost predicate InKid(kids: seq<Kid>, path: string, t: string) {
    exists i :: 0 <= i < |kids| && t in Tokens(kids[i].value, path + kids[i].suffix)
  }

  lemma TokensUnfold(v: Value, path: string)
    ensures v.Object? ==> forall t :: t in Tokens(v, path) <==> t == TokenOf(path, v) || InMember(v.members, path, t)
    ensures v.Array? ==> forall t :: t in Tokens(v, path) <==> t == TokenOf(path, v) || InItem(v.items, path, t)
    ensures !v.Object? && !v.Array? ==> Tokens(v, path) == {TokenOf(path, v)}
  {
  }

  lemma KidTokensUnfold(kids: seq<Kid>, path: string)
    ensures forall t :: t in KidTokens(kids, path) <==> InKid(kids, path, t)
  {
    hide Tokens;
  }

  lemma MemberIsKid(v: Value, path: string, t: string)
    requires v.Object?
    ensures InMember(v.members, path, t) <==> InKid(Kids(v), path, t)
  {
    hide Tokens, SortedKeys;
    var keys, kids := SortedKeys(v.members.Keys), Kids(v);
    assert forall i :: 0 <= i < |keys| ==> keys[i] in keys && kids[i] == Kid("." + keys[i], v.members[keys[i]]);
    assert forall k :: path + ("." + k) == path + "." + k;
    if InMember(v.members, path, t) {
      var k :| k in v.members && t in Tokens(v.members[k], path + "." + k);
      assert k in keys;
      var i :| 0 <= i < |keys| && keys[i] == k;
      assert t in Tokens(kids[i].value, path + kids[i].suffix);
    }
    if InKid(kids, path, t) {
      var i :| 0 <= i < |kids| && t in Tokens(kids[i].value, path + kids[i].suffix);
      assert keys[i] in v.members && path + kids[i].suffix == path + "." + keys[i];
    }
  }

  lemma ItemIsKid(v: Value, path: string, t: string)
    requires v.Array?
    ensures InItem(v.items, path, t) <==> InKid(Kids(v), path, t)
  {
    hide Tokens;
    var kids := Kids(v);
    assert forall i :: 0 <= i < |v.items| ==> kids[i] == Kid("[]", v.items[i]);
    if InItem(v.items, path, t) {
      var i :| 0 <= i < |v.items| && t in Tokens(v.items[i], path + "[]");
      assert t in Tokens(kids[i].value, path + kids[i].suffix);
    }
    if InKid(kids, path, t) {
      var i :| 0 <= i < |kids| && t in Tokens(kids[i].value, path + kids[i].suffix);
      assert t in Tokens(v.items[i], path + "[]");
    }
  }

  lemma TokensOfKids(v: Value, path: string)
    ensures Tokens(v, path) == {TokenOf(path, v)} + KidTokens(Kids(v), path)
  {
    hide Tokens, KidTokens, InMember, InItem, InKid, TokenOf;
    TokensUnfold(v, path);
    KidTokensUnfold(Kids(v), path);
    if !v.Object? && !v.Array? {
      NoKids(v, path);
    } else {
      forall t
        ensures t in Tokens(v, path) <==> t in {TokenOf(path, v)} + KidTokens(Kids(v), path)
      {
        if v.Object? {
          MemberIsKid(v, path, t);
        } else {
          ItemIsKid(v, path, t);
        }
      }
    }
  }

  lemma NoKids(v: Value, path: string)
    requires !v.Object? && !v.Array?
    ensures Kids(v) == [] && KidTokens(Kids(v), path) == {}
  {
  }

  lemma MemberKids(v: Value)
    requires v.Object?
    ensures var keys := SortedKeys(v.members.Keys);
      |Kids(v)| == |keys| && forall i :: 0 <= i < |keys| ==>
        keys[i] in v.members && Kids(v)[i] == Kid("." + keys[i], v.members[keys[i]])
  {
    var keys := SortedKeys(v.members.Keys);
    assert forall i :: 0 <= i < |keys| ==> keys[i] in keys;
  }

  lemma ItemKids(v: Value)
    requires v.Array?
    ensures |Kids(v)| == |v.items| && forall i :: 0 <= i < |v.items| ==> Kids(v)[i] == Kid("[]", v.items[i])
  {
  }

  lemma ShallowUnfold(v: Value, n: int)
    ensures v.Object? ==> (Shallow(v, n) <==> n >= 0 && forall k :: k in v.members ==> Shallow(v.members[k], n - 1))
    ensures v.Array? ==> (Shallow(v, n) <==> n >= 0 && forall i :: 0 <= i < |v.items| ==> Shallow(v.items[i], n - 1))
    ensures !v.Object? && !v.Array? ==> (Shallow(v, n) <==> n >= 0)
  {
  }

  lemma ShallowKids(v: Value, n: int)
    ensures Shallow(v, n) <==> n >= 0 && forall i :: 0 <= i < |Kids(v)| ==> Shallow(Kids(v)[i].value, n - 1)
  {
    hide Shallow, Kids, SortedKeys;
    ShallowUnfold(v, n);
    var kids := Kids(v);
    if v.Object? {
      MemberKids(v);
      var keys := SortedKeys(v.members.Keys);
      if forall i :: 0 <= i < |kids| ==> Shallow(kids[i].value, n - 1) {
        forall k | k in v.members
          ensures Shallow(v.members[k], n - 1)
        {
          assert k in keys;
          var i :| 0 <= i < |keys| && keys[i] == k;
          assert Shallow(kids[i].value, n - 1);
        }
      }
    } else if v.Array? {
      ItemKids(v);
      if forall i :: 0 <= i < |kids| ==> Shallow(kids[i].value, n - 1) {
        forall i | 0 <= i < |v.items|
          ensures Shallow(v.items[i], n - 1)
        {
          assert Shallow(kids[i].value, n - 1);
        }
      }
    } else {
      NoKids(v, "");
    }
  }

  lemma {:induction false} VisitIsTokens(v: Value, path: string, depth: int)
    ensures TokenSet(Visit(v, path, depth)) == Tokens(v, path)
    ensures DepthsWithin(Visit(v, path, depth)) <==> Shallow(v, MAX_DEPTH - depth)
    decreases v, 1, 0
  {
    hide Tokens, Shallow, Kids, Visit, VisitKids, KidTokens, TokenOf;
    var first := [Node(TokenOf(path, v), depth)];
    var rest := VisitKids(v, Kids(v), path, depth + 1);
    assert Visit(v, path, depth) == first + rest by { VisitUnfolds(v, path, depth); }
    VisitKidsIsTokens(v, Kids(v), path, depth + 1);
    TokensOfKids(v, path);
    ShallowKids(v, MAX_DEPTH - depth);
    NodesConcat(first, rest);
    assert TokenSet(first) == {TokenOf(path, v)};
  }

  lemma NodesConcat(a: seq<Node>, b: seq<Node>)
    ensures TokenSet(a + b) == TokenSet(a) + TokenSet(b)
    ensures DepthsWithin(a + b) <==> DepthsWithin(a) && DepthsWithin(b)
  {
  }

  lemma NothingVisited(v: Value, path: string, depth: int)
    ensures VisitKids(v, [], path, depth) == [] && TokenSet([]) == KidTokens([], path) && DepthsWithin([])
  {
  }

  lemma VisitUnfolds(v: Value, path: string, depth: int)
    ensures Visit(v, path, depth) == [Node(TokenOf(path, v), depth)] + VisitKids(v, Kids(v), path, depth + 1)
  {
  }

  lemma {:induction false} VisitKidsIsTokens(v: Value, kids: seq<Kid>, path: string, depth: int)
    requires forall i :: 0 <= i < |kids| ==> kids[i].value < v
    ensures TokenSet(VisitKids(v, kids, path, depth)) == KidTokens(kids, path)
    ensures DepthsWithin(VisitKids(v, kids, path, depth)) <==> forall i :: 0 <= i < |kids| ==>
      Shallow(kids[i].value, MAX_DEPTH - depth)
    decreases v, 0, |kids|
  {
    hide Tokens, Shallow, Visit, TokenSet, DepthsWithin, KidTokens;
    if kids == [] {
      NothingVisited(v, path, depth);
    } else {
      var n := |kids| - 1;
      VisitKidsIsTokens(v, kids[..n], path, depth);
      VisitIsTokens(kids[n].value, path + kids[n].suffix, depth);
      var a, b := VisitKids(v, kids[..n], path, depth), Visit(kids[n].value, path + kids[n].suffix, depth);
      NodesConcat(a, b);
      KidTokensStep(kids, path);
      assert forall i :: 0 <= i < n ==> kids[..n][i] == kids[i];
    }
  }

  lemma KidTokensStep(kids: seq<Kid>, path: string)
    requires kids != []
    ensures var n := |kids| - 1;
      KidTokens(kids, path) == KidTokens(kids[..n], path) + Tokens(kids[n].value, path + kids[n].suffix)
  {
    hide Tokens;
    var n := |kids| - 1;
    assert forall i :: 0 <= i < n ==> kids[..n][i] == kids[i];
    forall t | t in KidTokens(kids[..n], path)
      ensures t in KidTokens(kids, path)
    {
      var i :| 0 <= i < n && t in Tokens(kids[..n][i].value, path + kids[..n][i].suffix);
      assert t in Tokens(kids[i].value, path + kids[i].suffix);
    }
    forall t | t in KidTokens(kids, path) && t !in Tokens(kids[n].value, path + kids[n].suffix)
      ensures t in KidTokens(kids[..n], path)
    {
      var i :| 0 <= i < |kids| && t in Tokens(kids[i].value, path + kids[i].suffix);
      assert t in Tokens(kids[..n][i].value, path + kids[..n][i].suffix);
    }
  }

  // ----- The walk as the program runs it -----

  class Profiler {
    var seen: set<string>
    var truncated: bool

    constructor ()
      ensures seen == {} && !truncated
    {
      seen, truncated := {}, false;
    }

    /** Marks the current node, unless the set is full. */
    method Add(token: string) returns (ok: bool)
      modifies this
      ensures ok <==> |old(seen)| < MAX_FIELDS
      ensures seen == (if ok then old(seen) + {token} else old(seen)) && truncated == (old(truncated) || !ok)
    {
      if |seen| >= MAX_FIELDS {
        truncated := true;
        return false;
      }
      seen := seen + {token};
      return true;
    }

    /** However much is cut off: never too many tokens, none that is not there, the flag exactly
        when some visited node found no room, and everything when none did. */
    method Walk(v: Value, path: string, depth: int)
      requires |seen| <= MAX_FIELDS
      modifies this
      ensures |seen| <= MAX_FIELDS && old(seen) <= seen <= old(seen) + Tokens(v, path)
      ensures truncated <==> old(truncated) || !Roomy(Visit(v, path, depth), old(seen))
      ensures Roomy(Visit(v, path, depth), old(seen)) ==> seen == old(seen) + Tokens(v, path)
      decreases v
    {
      hide Tokens, Visit, VisitKids, Kids, KidTokens, Walked, Roomy, SortedKeys, TokenOf;
      RoomyNode(v, path, depth, seen);
      if depth > MAX_DEPTH || |seen| >= MAX_FIELDS {
        truncated := true;
        return;
      }
      ghost var entry := seen;
      Growth(seen, TokenOf(path, v));
      ghost var kids, marked := Kids(v), seen + {TokenOf(path, v)};
      ghost var flag := truncated;
      var ok := Add(TokenOf(path, v));
      NoneWalked(v, path, depth + 1, marked, flag);
      if v.Object? {
        var keys := SortNames(v.members.Keys);
        MemberKids(v);
        for i := 0 to |keys|
          invariant |seen| <= MAX_FIELDS && Walked(v, kids[..i], path, depth + 1, marked, flag, seen, truncated)
        {
          assert keys[i] in keys && kids[i] == Kid("." + keys[i], v.members[keys[i]]);
          assert path + kids[i].suffix == path + "." + keys[i];
          ghost var before, cut := seen, truncated;
          Walk(v.members[keys[i]], path + "." + keys[i], depth + 1);
          KidWalked(v, kids, i, path, depth + 1, marked, flag, before, cut, seen, truncated);
        }
        assert kids[..|keys|] == kids;
      } else if v.Array? {
        ItemKids(v);
        for i := 0 to |v.items|
          invariant |seen| <= MAX_FIELDS && Walked(v, kids[..i], path, depth + 1, marked, flag, seen, truncated)
        {
          ghost var before, cut := seen, truncated;
          Walk(v.items[i], path + "[]", depth + 1);
          KidWalked(v, kids, i, path, depth + 1, marked, flag, before, cut, seen, truncated);
        }
        assert kids[..|v.items|] == kids;
      } else {
        NoKids(v, path);
      }
      AllWalked(v, path, depth, entry, flag, seen, truncated);
    }
  }

  /** The state after the first children of v were walked, starting from marked and flag. */
  ghost predicate Walked(v: Value, kids: seq<Kid>, path: string, depth: int, marked: set<string>, flag: bool,
      seen: set<string>, truncated: bool) {
    && (forall i :: 0 <= i < |kids| ==> kids[i].value < v)
    && |seen| <= MAX_FIELDS && marked <= seen <= marked + KidTokens(kids, path)
    && (truncated <==> flag || !Roomy(VisitKids(v, kids, path, depth), marked))
    && (Roomy(VisitKids(v, kids, path, depth), marked) ==> seen == marked + KidTokens(kids, path))
  }

  lemma NoneWalked(v: Value, path: string, depth: int, marked: set<string>, flag: bool)
    requires |marked| <= MAX_FIELDS
    ensures Walked(v, [], path, depth, marked, flag, marked, flag)
  {
  }

  lemma RoomyNode(v: Value, path: string, depth: int, seen: set<string>)
    ensures Roomy(Visit(v, path, depth), seen)
      <==>
      && depth <= MAX_DEPTH && |seen| < MAX_FIELDS
      && Roomy(VisitKids(v, Kids(v), path, depth + 1), seen + {TokenOf(path, v)})
  {
    hide Kids, VisitKids, TokenOf;
    VisitUnfolds(v, path, depth);
    assert Visit(v, path, depth)[1..] == VisitKids(v, Kids(v), path, depth + 1);
  }

  lemma AllWalked(v: Value, path: string, depth: int, entry: set<string>, flag: bool, seen: set<string>,
      truncated: bool)
    requires depth <= MAX_DEPTH && |entry| < MAX_FIELDS
    requires Walked(v, Kids(v), path, depth + 1, entry + {TokenOf(path, v)}, flag, seen, truncated)
    ensures |seen| <= MAX_FIELDS && entry <= seen <= entry + Tokens(v, path)
    ensures truncated <==> flag || !Roomy(Visit(v, path, depth), entry)
    ensures Roomy(Visit(v, path, depth), entry) ==> seen == entry + Tokens(v, path)
  {
    hide Tokens, Visit, VisitKids, Kids, KidTokens, Roomy, TokenOf;
    RoomyNode(v, path, depth, entry);
    TokensOfKids(v, path);
  }

  lemma KidWalked(v: Value, kids: seq<Kid>, i: nat, path: string, depth: int, marked: set<string>, flag: bool,
      before: set<string>, cut: bool, seen: set<string>, truncated: bool)
    requires i < |kids| && forall k :: 0 <= k < |kids| ==> kids[k].value < v
    requires Walked(v, kids[..i], path, depth, marked, flag, before, cut)
    requires var kid, at := kids[i], path + kids[i].suffix;
      && |seen| <= MAX_FIELDS && before <= seen <= before + Tokens(kid.value, at)
      && (truncated <==> cut || !Roomy(Visit(kid.value, at, depth), before))
      && (Roomy(Visit(kid.value, at, depth), before) ==> seen == before + Tokens(kid.value, at))
    ensures Walked(v, kids[..i + 1], path, depth, marked, flag, seen, truncated)
  {
    hide Tokens, Visit, KidTokens, Roomy, TokenSet, DepthsWithin, Shallow;
    var kid, at := kids[i], path + kids[i].suffix;
    var done, more := VisitKids(v, kids[..i], path, depth), Visit(kid.value, at, depth);
    assert kids[..i + 1][..i] == kids[..i] && kids[..i + 1][i] == kid;
    assert VisitKids(v, kids[..i + 1], path, depth) == done + more;
    KidTokensStep(kids[..i + 1], path);
    RoomyConcat(done, more, marked);
    VisitKidsIsTokens(v, kids[..i], path, depth);
  }

  // ----- Field paths -----

  /** The position of the last colon, or -1. */
  function LastColon(s: string): (i: int)
    ensures -1 <= i < |s|
  {
    if s == "" then -1
    else if s[|s| - 1] == ':' then |s| - 1
    else LastColon(s[..|s| - 1])
  }

  lemma {:induction false} LastColonSkips(s: string, t: string)
    requires ':' !in t
    ensures LastColon(s + t) == LastColon(s)
  {
    if t == "" {
      assert s + t == s;
    } else {
      var n := |t| - 1;
      LastColonSkips(s, t[..n]);
      assert (s + t)[|s + t| - 1] == t[n] && (s + t)[..|s + t| - 1] == s + t[..n];
    }
  }

  /** Whatever the path holds, colons included, cutting a token at its last colon gives it back. */
  lemma TokenSplits(path: string, v: Value)
    ensures LastColon(TokenOf(path, v)) == |path| && TokenOf(path, v)[..|path|] == path
  {
    assert ':' !in KindOf(v);
    LastColonSkips(path + ":", KindOf(v));
    assert path + ":" + KindOf(v) == (path + ":") + KindOf(v);
    assert (path + ":")[|path|] == ':';
  }

  function FieldsOf(tokens: set<string>): set<string> {
    set t | t in tokens && LastColon(t) > 0 :: t[..LastColon(t)]
  }

  ghost predicate FieldIn(tokens: set<string>, f: string) {
    exists t :: t in tokens && LastColon(t) > 0 && t[..LastColon(t)] == f
  }

  lemma FieldsUnfold(tokens: set<string>)
    ensures forall f :: f in FieldsOf(tokens) <==> FieldIn(tokens, f)
  {
    hide LastColon;
  }

  lemma FieldsUnion(a: set<string>, b: set<string>)
    ensures FieldsOf(a + b) == FieldsOf(a) + FieldsOf(b)
  {
    hide LastColon;
  }

  /** The fields of the full token set are the paths of the value. */
  lemma {:induction false} FieldsArePaths(v: Value, path: string)
    requires path != ""
    ensures FieldsOf(Tokens(v, path)) == Paths(v, path)
    decreases v
  {
    hide LastColon, FieldsOf, TokenOf, Tokens, Paths, FieldIn;
    FieldsUnfold(Tokens(v, path));
    TokenSplits(path, v);
    TokensUnfold(v, path);
    PathsUnfold(v, path);
    if v.Object? {
      forall k | k in v.members
        ensures FieldsOf(Tokens(v.members[k], path + "." + k)) == Paths(v.members[k], path + "." + k)
      {
        FieldsArePaths(v.members[k], path + "." + k);
      }
      forall f
        ensures FieldIn(Tokens(v, path), f) <==> f == path || PathInMember(v.members, path, f)
      {
        MemberField(v, path, f);
      }
    } else if v.Array? {
      forall i | 0 <= i < |v.items|
        ensures FieldsOf(Tokens(v.items[i], path + "[]")) == Paths(v.items[i], path + "[]")
      {
        FieldsArePaths(v.items[i], path + "[]");
      }
      forall f
        ensures FieldIn(Tokens(v, path), f) <==> f == path || PathInItem(v.items, path, f)
      {
        ItemField(v, path, f);
      }
    } else {
      forall f
        ensures FieldIn(Tokens(v, path), f) <==> f == path
      {
        ScalarField(v, path, f);
      }
    }
  }

  ghost predicate PathInMember(members: map<string, Value>, path: string, f: string) {
    exists k :: k in members && f in Paths(members[k], path + "." + k)
  }

  ghost predicate PathInItem(items: seq<Value>, path: string, f: string) {
    exists i :: 0 <= i < |items| && f in Paths(items[i], path + "[]")
  }

  lemma PathsUnfold(v: Value, path: string)
    ensures v.Object? ==> forall f :: f in Paths(v, path) <==> f == path || PathInMember(v.members, path, f)
    ensures v.Array? ==> forall f :: f in Paths(v, path) <==> f == path || PathInItem(v.items, path, f)
    ensures !v.Object? && !v.Array? ==> Paths(v, path) == {path}
  {
  }

  lemma OwnField(v: Value, path: string)
    requires path != ""
    ensures TokenOf(path, v) in Tokens(v, path) && FieldIn(Tokens(v, path), path)
  {
    hide TokenOf;
    TokenSplits(path, v);
    assert TokenOf(path, v) in Tokens(v, path);
  }

  lemma ScalarField(v: Value, path: string, f: string)
    requires path != "" && !v.Object? && !v.Array?
    ensures FieldIn(Tokens(v, path), f) <==> f == path
  {
    hide TokenOf, Tokens;
    OwnField(v, path);
    TokensUnfold(v, path);
    TokenSplits(path, v);
  }

  lemma MemberField(v: Value, path: string, f: string)
    requires path != "" && v.Object?
    requires forall k :: k in v.members ==>
      FieldsOf(Tokens(v.members[k], path + "." + k)) == Paths(v.members[k], path + "." + k)
    ensures FieldIn(Tokens(v, path), f) <==> f == path || PathInMember(v.members, path, f)
  {
    hide TokenOf, Tokens, LastColon, FieldsOf, Paths;
    OwnField(v, path);
    TokensUnfold(v, path);
    TokenSplits(path, v);
    if FieldIn(Tokens(v, path), f) && f != path {
      var t :| t in Tokens(v, path) && LastColon(t) > 0 && t[..LastColon(t)] == f;
      var k :| k in v.members && t in Tokens(v.members[k], path + "." + k);
      FieldsUnfold(Tokens(v.members[k], path + "." + k));
      assert FieldIn(Tokens(v.members[k], path + "." + k), f);
    }
    if PathInMember(v.members, path, f) {
      var k :| k in v.members && f in Paths(v.members[k], path + "." + k);
      FieldsUnfold(Tokens(v.members[k], path + "." + k));
      var t :| t in Tokens(v.members[k], path + "." + k) && LastColon(t) > 0 && t[..LastColon(t)] == f;
      assert InMember(v.members, path, t);
    }
  }

  lemma ItemField(v: Value, path: string, f: string)
    requires path != "" && v.Array?
    requires forall i :: 0 <= i < |v.items| ==>
      FieldsOf(Tokens(v.items[i], path + "[]")) == Paths(v.items[i], path + "[]")
    ensures FieldIn(Tokens(v, path), f) <==> f == path || PathInItem(v.items, path, f)
  {
    hide TokenOf, Tokens, LastColon, FieldsOf, Paths;
    OwnField(v, path);
    TokensUnfold(v, path);
    TokenSplits(path, v);
    if FieldIn(Tokens(v, path), f) && f != path {
      var t :| t in Tokens(v, path) && LastColon(t) > 0 && t[..LastColon(t)] == f;
      var i :| 0 <= i < |v.items| && t in Tokens(v.items[i], path + "[]");
      FieldsUnfold(Tokens(v.items[i], path + "[]"));
      assert FieldIn(Tokens(v.items[i], path + "[]"), f);
    }
    if PathInItem(v.items, path, f) {
      var i :| 0 <= i < |v.items| && f in Paths(v.items[i], path + "[]");
      FieldsUnfold(Tokens(v.items[i], path + "[]"));
      var t :| t in Tokens(v.items[i], path + "[]") && LastColon(t) > 0 && t[..LastColon(t)] == f;
      assert InItem(v.items, path, t);
    }
  }

  // ----- Profiles -----

  datatype Profile = Profile(tokens: seq<string>, fields: seq<string>, truncated: bool)

  function Elements(s: seq<string>): set<string> {
    set t | t in s
  }

  lemma ElementsStep(s: seq<string>, t: string)
    ensures Elements(s + [t]) == Elements(s) + {t}
  {
  }

  lemma OneField(t: string)
    ensures FieldsOf({t}) == if LastColon(t) > 0 then {t[..LastColon(t)]} else {}
  {
    hide LastColon;
  }

  method FieldSet(tokens: seq<string>) returns (fields: set<string>)
    ensures fields == FieldsOf(Elements(tokens))
  {
    hide LastColon, FieldsOf;
    fields := {};
    assert Elements(tokens[..0]) == {};
    assert FieldsOf({}) == {} by { NoFields(); }
    for i := 0 to |tokens|
      invariant fields == FieldsOf(Elements(tokens[..i]))
    {
      OneField(tokens[i]);
      var c := LastColon(tokens[i]);
      if c > 0 {
        fields := fields + {tokens[i][..c]};
      }
      assert tokens[..i + 1] == tokens[..i] + [tokens[i]];
      ElementsStep(tokens[..i], tokens[i]);
      FieldsUnion(Elements(tokens[..i]), {tokens[i]});
    }
    assert tokens[..|tokens|] == tokens;
  }

  lemma NoFields()
    ensures FieldsOf({}) == {}
  {
  }

  method ProfileOf(v: Value) returns (r: Profile)
    ensures r.truncated <==> !Roomy(Visit(v, "$", 0), {})
    ensures exists seen :: IsProfile(v, r, seen)
  {
    hide Tokens, Visit, Roomy, FieldsOf, SortedKeys;
    var p := new Profiler();
    p.Walk(v, "$", 0);
    var tokens := SortNames(p.seen);
    var fieldSet := FieldSet(tokens);
    assert Elements(tokens) == p.seen;
    var fields := SortNames(fieldSet);
    r := Profile(tokens, fields, p.truncated);
    assert {} + Tokens(v, "$") == Tokens(v, "$");
    assert IsProfile(v, r, p.seen);
  }

  /** seen is what a profile of v was computed from. */
  ghost predicate IsProfile(v: Value, r: Profile, seen: set<string>) {
    && |seen| <= MAX_FIELDS && seen <= Tokens(v, "$")
    && (!r.truncated ==> seen == Tokens(v, "$"))
    && r.tokens == SortedKeys(seen) && r.fields == SortedKeys(FieldsOf(seen))
  }

  /** Main result: a profile that is not cut off is complete; it is cut off whenever the value has
      more than 2048 tokens or lies deeper than 64 levels, and never when it has fewer and does not. */
  lemma CutOffWhenTooLarge(v: Value)
    ensures Roomy(Visit(v, "$", 0), {}) ==> Shallow(v, MAX_DEPTH) && |Tokens(v, "$")| <= MAX_FIELDS
    ensures Shallow(v, MAX_DEPTH) && |Tokens(v, "$")| < MAX_FIELDS ==> Roomy(Visit(v, "$", 0), {})
  {
    hide Tokens, Shallow, Roomy, VisitKids, Kids;
    RoomyBounds(Visit(v, "$", 0), {});
    VisitIsTokens(v, "$", 0);
    assert {} + TokenSet(Visit(v, "$", 0)) == Tokens(v, "$");
  }

  /** Main result, at the boundary too: a profile is cut off exactly when the value lies too deep or
      the nodes before the last one visited already have 2048 different tokens. */
  lemma CutOffIff(v: Value)
    ensures var nodes := Visit(v, "$", 0);
      Roomy(nodes, {}) <==> Shallow(v, MAX_DEPTH) && |TokenSet(nodes[..|nodes| - 1])| < MAX_FIELDS
  {
    hide Tokens, Shallow, Roomy, VisitKids, Kids;
    var nodes := Visit(v, "$", 0);
    RoomyIff(nodes, {});
    VisitIsTokens(v, "$", 0);
    assert {} + TokenSet(nodes[..|nodes| - 1]) == TokenSet(nodes[..|nodes| - 1]);
  }

  /** A complete profile lists exactly the paths of the value. */
  lemma CompleteFields(v: Value, r: Profile, seen: set<string>)
    requires IsProfile(v, r, seen) && !r.truncated
    ensures r.fields == SortedKeys(Paths(v, "$"))
  {
    hide Tokens, FieldsOf, Paths;
    FieldsArePaths(v, "$");
  }

  // ----- Values of the same shape -----

  /** The same types and member names throughout; array elements match each other somehow. */
  ghost predicate Alike(a: Value, b: Value)
    decreases a, 0
  {
    && KindOf(a) == KindOf(b)
    && match a
       case Object(members) =>
         members.Keys == b.members.Keys && forall k :: k in members ==> Alike(members[k], b.members[k])
       case Array(items) =>
         && (forall i :: 0 <= i < |items| ==> InAny(items[i], b.items))
         && (forall j :: 0 <= j < |b.items| ==> FromAny(items, b.items[j]))
       case _ => true
  }

  ghost predicate InAny(x: Value, ys: seq<Value>)
    decreases x, 1
  {
    exists j :: 0 <= j < |ys| && Alike(x, ys[j])
  }

  ghost predicate FromAny(xs: seq<Value>, y: Value)
    decreases xs, 0
  {
    exists i :: 0 <= i < |xs| && Alike(xs[i], y)
  }

  lemma {:induction false} AlikeReflexive(a: Value)
    ensures Alike(a, a)
    decreases a
  {
    match a {
      case Object(members) =>
        forall k | k in members
          ensures Alike(members[k], members[k])
        {
          AlikeReflexive(members[k]);
        }
      case Array(items) =>
        forall i | 0 <= i < |items|
          ensures InAny(items[i], items) && FromAny(items, items[i])
        {
          AlikeReflexive(items[i]);
        }
      case _ =>
    }
  }

  /** Reordering or repeating array elements keeps the shape. */
  lemma RearrangedAlike(xs: seq<Value>, ys: seq<Value>)
    requires forall x :: x in xs <==> x in ys
    ensures Alike(Array(xs), Array(ys))
  {
    forall i | 0 <= i < |xs|
      ensures InAny(xs[i], ys)
    {
      assert xs[i] in ys;
      var j :| 0 <= j < |ys| && ys[j] == xs[i];
      AlikeReflexive(xs[i]);
      assert Alike(xs[i], ys[j]);
    }
    forall j | 0 <= j < |ys|
      ensures FromAny(xs, ys[j])
    {
      assert ys[j] in xs;
      var i :| 0 <= i < |xs| && xs[i] == ys[j];
      AlikeReflexive(ys[j]);
      assert Alike(xs[i], ys[j]);
    }
  }

  /** Main result: values of the same shape have the same tokens, whatever the order or number of
      their array elements. */
  lemma {:induction false} AlikeTokens(a: Value, b: Value, path: string)
    requires Alike(a, b)
    ensures Tokens(a, path) == Tokens(b, path)
    decreases a
  {
    hide Tokens, InMember, InItem;
    TokensUnfold(a, path);
    TokensUnfold(b, path);
    if a.Object? {
      forall k | k in a.members
        ensures Tokens(a.members[k], path + "." + k) == Tokens(b.members[k], path + "." + k)
      {
        AlikeTokens(a.members[k], b.members[k], path + "." + k);
      }
      SameMembers(a.members, b.members, path);
    } else if a.Array? {
      forall i, j | 0 <= i < |a.items| && 0 <= j < |b.items| && Alike(a.items[i], b.items[j])
        ensures Tokens(a.items[i], path + "[]") == Tokens(b.items[j], path + "[]")
      {
        AlikeTokens(a.items[i], b.items[j], path + "[]");
      }
      SameItems(a.items, b.items, path);
    }
  }

  lemma SameMembers(xs: map<string, Value>, ys: map<string, Value>, path: string)
    requires xs.Keys == ys.Keys && forall k :: k in xs ==>
      Tokens(xs[k], path + "." + k) == Tokens(ys[k], path + "." + k)
    ensures forall t :: InMember(xs, path, t) <==> InMember(ys, path, t)
  {
    hide Tokens;
    assert forall k :: k in xs <==> k in xs.Keys;
    assert forall k :: k in ys <==> k in ys.Keys;
  }

  ghost predicate TokensAgree(xs: seq<Value>, ys: seq<Value>, path: string) {
    forall i, j :: 0 <= i < |xs| && 0 <= j < |ys| && Alike(xs[i], ys[j]) ==>
      Tokens(xs[i], path + "[]") == Tokens(ys[j], path + "[]")
  }

  lemma SameItems(xs: seq<Value>, ys: seq<Value>, path: string)
    requires TokensAgree(xs, ys, path)
    requires forall i :: 0 <= i < |xs| ==> InAny(xs[i], ys)
    requires forall j :: 0 <= j < |ys| ==> FromAny(xs, ys[j])
    ensures forall t :: InItem(xs, path, t) <==> InItem(ys, path, t)
  {
    hide *;
    forall t
      ensures InItem(xs, path, t) <==> InItem(ys, path, t)
    {
      if InItem(xs, path, t) {
        ItemForward(xs, ys, path, t);
      }
      if InItem(ys, path, t) {
        ItemBack(xs, ys, path, t);
      }
    }
  }

  lemma ItemForward(xs: seq<Value>, ys: seq<Value>, path: string, t: string)
    requires TokensAgree(xs, ys, path) && InItem(xs, path, t)
    requires forall i :: 0 <= i < |xs| ==> InAny(xs[i], ys)
    ensures InItem(ys, path, t)
  {
    hide Tokens, Alike, FromAny;
    var i :| 0 <= i < |xs| && t in Tokens(xs[i], path + "[]");
    assert InAny(xs[i], ys);
    var j :| 0 <= j < |ys| && Alike(xs[i], ys[j]);
    assert t in Tokens(ys[j], path + "[]");
  }

  lemma ItemBack(xs: seq<Value>, ys: seq<Value>, path: string, t: string)
    requires TokensAgree(xs, ys, path) && InItem(ys, path, t)
    requires forall j :: 0 <= j < |ys| ==> FromAny(xs, ys[j])
    ensures InItem(xs, path, t)
  {
    hide Tokens, Alike, InAny;
    var j :| 0 <= j < |ys| && t in Tokens(ys[j], path + "[]");
    assert FromAny(xs, ys[j]);
    var i :| 0 <= i < |xs| && Alike(xs[i], ys[j]);
    assert t in Tokens(xs[i], path + "[]");
  }

  /** Complete profiles of values of the same shape are equal. */
  lemma AlikeProfiles(a: Value, b: Value, p: Profile, q: Profile, seenA: set<string>, seenB: set<string>)
    requires Alike(a, b) && IsProfile(a, p, seenA) && IsProfile(b, q, seenB) && !p.truncated && !q.truncated
    ensures p == q
  {
    hide Tokens, Alike, FieldsOf;
    AlikeTokens(a, b, "$");
  }
}
