/** Names in byte order: the order itself, and the one sorted list of a set of names. */
module Sorting {

  /** Strict lexicographic order. */
  predicate Less(a: string, b: string) {
    b != "" && (a == "" || a[0] < b[0] || (a[0] == b[0] && Less(a[1..], b[1..])))
  }

  lemma {:induction false} LessIsStrict(a: string, b: string)
    ensures !(Less(a, b) && Less(b, a))
    ensures Less(a, b) || Less(b, a) || a == b
    ensures Less(a, b) ==> a != b
  {
    if a != "" && b != "" && a[0] == b[0] {
      LessIsStrict(a[1..], b[1..]);
      assert a == [a[0]] + a[1..] && b == [b[0]] + b[1..];
    }
  }

  lemma {:induction false} LessIsTransitive(a: string, b: string, c: string)
    requires Less(a, b) && Less(b, c)
    ensures Less(a, c)
  {
    if a != "" && a[0] == b[0] == c[0] {
      LessIsTransitive(a[1..], b[1..], c[1..]);
    }
  }

  ghost predicate Sorted(s: seq<string>) {
    forall i, j :: 0 <= i < j < |s| ==> Less(s[i], s[j])
  }

  ghost predicate Lists(s: seq<string>, keys: set<string>) {
    forall k :: k in s <==> k in keys
  }

  ghost predicate IsLeast(m: string, keys: set<string>) {
    m in keys && forall k :: k in keys && k != m ==> Less(m, k)
  }

  lemma LeastExists(keys: set<string>)
    requires keys != {}
    ensures exists m :: IsLeast(m, keys)
    decreases keys
  {
    var k :| k in keys;
    var m := k;
    if keys != {k} {
      var rest := keys - {k};
      assert keys == rest + {k};
      LeastExists(rest);
      m :| IsLeast(m, rest);
      LessIsStrict(k, m);
      if Less(k, m) {
        forall x | x in rest && x != m
          ensures Less(k, x)
        {
          LessIsTransitive(k, m, x);
        }
        m := k;
      }
    }
    assert IsLeast(m, keys);
  }

  /** The names of a set in ascending order. */
  ghost function SortedKeys(keys: set<string>): (s: seq<string>)
    ensures Sorted(s) && Lists(s, keys)
  {
    if keys == {} then []
    else
      LeastExists(keys);
      var m :| IsLeast(m, keys);
      var rest := SortedKeys(keys - {m});
      assert forall k :: k in rest ==> Less(m, k);
      [m] + rest
  }

  /** There is only one ascending list of a set of names. */
  lemma {:induction false} SortedIsUnique(s: seq<string>, t: seq<string>, keys: set<string>)
    requires Sorted(s) && Lists(s, keys) && Sorted(t) && Lists(t, keys)
    ensures s == t
    decreases |s|
  {
    EmptyLists(s, keys);
    EmptyLists(t, keys);
    if keys != {} {
      FirstIsLeast(s, keys);
      FirstIsLeast(t, keys);
      LessIsStrict(s[0], t[0]);
      RestLists(s, keys);
      RestLists(t, keys);
      SortedIsUnique(s[1..], t[1..], keys - {s[0]});
      assert s == [s[0]] + s[1..] && t == [t[0]] + t[1..];
    }
  }

  lemma EmptyLists(s: seq<string>, keys: set<string>)
    requires Lists(s, keys)
    ensures s == [] <==> keys == {}
  {
    if s != [] {
      assert s[0] in s;
    }
  }

  lemma FirstIsLeast(s: seq<string>, keys: set<string>)
    requires Sorted(s) && Lists(s, keys) && s != []
    ensures IsLeast(s[0], keys)
  {
    assert s[0] in s;
  }

  lemma RestLists(s: seq<string>, keys: set<string>)
    requires Sorted(s) && Lists(s, keys) && s != []
    ensures Sorted(s[1..]) && Lists(s[1..], keys - {s[0]})
  {
    forall k
      ensures k in s[1..] <==> k in keys - {s[0]}
    {
      if k in s[1..] {
        var i :| 0 <= i < |s[1..]| && s[1..][i] == k;
        assert k == s[i + 1] && Less(s[0], s[i + 1]);
        LessIsStrict(s[0], k);
      }
      if k in keys && k != s[0] {
        assert k in s;
        var i :| 0 <= i < |s| && s[i] == k;
        assert k == s[1..][i - 1];
      }
    }
  }

  /** Puts a new name in its place. */
  method Place(s: seq<string>, name: string) returns (r: seq<string>)
    requires Sorted(s) && name !in s
    ensures Sorted(r) && forall k :: k in r <==> k in s || k == name
  {
    var i := 0;
    while i < |s| && Less(s[i], name)
      invariant i <= |s| && forall j :: 0 <= j < i ==> Less(s[j], name)
    {
      i := i + 1;
    }
    r := s[..i] + [name] + s[i..];
    if i < |s| {
      assert s[i] in s;
      LessIsStrict(name, s[i]);
    }
    PlacedSorted(s, i, name);
    PlacedMembers(s, i, name);
  }

  lemma PlacedSorted(s: seq<string>, i: nat, name: string)
    requires Sorted(s) && i <= |s|
    requires (forall j :: 0 <= j < i ==> Less(s[j], name)) && (i < |s| ==> Less(name, s[i]))
    ensures Sorted(s[..i] + [name] + s[i..])
  {
    hide Less;
    var r := s[..i] + [name] + s[i..];
    forall j | i <= j < |s|
      ensures Less(name, s[j])
    {
      if i < j {
        LessIsTransitive(name, s[i], s[j]);
      }
    }
    forall j | 0 <= j < |r|
      ensures r[j] == if j < i then s[j] else if j == i then name else s[j - 1]
    {
    }
  }

  lemma PlacedMembers(s: seq<string>, i: nat, name: string)
    requires i <= |s|
    ensures forall k :: k in s[..i] + [name] + s[i..] <==> k in s || k == name
  {
    assert s == s[..i] + s[i..];
  }

  /** Collects the names in whatever order the set yields them, then sorts. */
  method SortNames(keys: set<string>) returns (s: seq<string>)
    ensures s == SortedKeys(keys)
  {
    s := [];
    var left := keys;
    while left != {}
      invariant left <= keys && Sorted(s) && Lists(s, keys - left)
      decreases left
    {
      var k :| k in left;
      left := left - {k};
      s := Place(s, k);
    }
    assert keys - left == keys;
    SortedIsUnique(s, SortedKeys(keys), keys);
  }
}
