/** The execution order: a stable rearrangement of the declared identities that puts
    every deny-expected identity first when writes are verified. */
module Order {
  import opened Model
  import opened Engine

  lemma {:induction false} SelectMembers(tc: TestCase, ids: seq<Identity>, deny: bool)
    ensures forall id :: id in Select(tc, ids, deny) <==> id in ids && DenyFirst(tc, id) == deny
    ensures DistinctIdentities(ids) ==> DistinctIdentities(Select(tc, ids, deny))
  {
    if ids != [] {
      var head, rest := ids[0], ids[1..];
      SelectMembers(tc, rest, deny);
      assert ids == [head] + rest;
      assert DistinctIdentities(ids) ==> DistinctIdentities(rest);
      if DistinctIdentities(ids) && DenyFirst(tc, head) == deny {
        var s, t := Select(tc, ids, deny), Select(tc, rest, deny);
        forall i, j | 0 <= i < j < |s|
          ensures s[i].id != s[j].id
        {
          assert s[j] == t[j - 1] && t[j - 1] in rest;
          if i > 0 {
            assert s[i] == t[i - 1];
          } else {
            var k :| 0 <= k < |rest| && rest[k] == s[j];
            assert ids[k + 1] == s[j];
          }
        }
      }
    }
  }

  lemma {:induction false} SelectCounts(tc: TestCase, ids: seq<Identity>)
    ensures multiset(Select(tc, ids, true)) + multiset(Select(tc, ids, false)) == multiset(ids)
  {
    hide DenyFirst;
    if ids != [] {
      SelectCounts(tc, ids[1..]);
      SelectStep(tc, ids, true);
      SelectStep(tc, ids, false);
      hide Select;
      CountStep(ids[0], ids[1..], Select(tc, ids[1..], true), Select(tc, ids[1..], false));
      assert ids == [ids[0]] + ids[1..];
    }
  }

  lemma SelectStep(tc: TestCase, ids: seq<Identity>, deny: bool)
    requires ids != []
    ensures Select(tc, ids, deny) == (if DenyFirst(tc, ids[0]) == deny then [ids[0]]
      else []) + Select(tc, ids[1..], deny)
  {
    hide DenyFirst;
  }

  lemma CountStep(x: Identity, rest: seq<Identity>, a: seq<Identity>, b: seq<Identity>)
    requires multiset(a) + multiset(b) == multiset(rest)
    ensures multiset([x] + a) + multiset([] + b) == multiset([x] + rest)
    ensures multiset([] + a) + multiset([x] + b) == multiset([x] + rest)
  {
    assert [] + a == a && [] + b == b;
    assert multiset([x] + a) == multiset{x} + multiset(a);
    assert multiset([x] + b) == multiset{x} + multiset(b);
    assert multiset([x] + rest) == multiset{x} + multiset(rest);
  }

  /** positions are the places in ids of the elements of part, never going backwards. */
  ghost predicate Places(ids: seq<Identity>, part: seq<Identity>, positions: seq<nat>) {
    && |positions| == |part|
    && (forall k :: 0 <= k < |part| ==> positions[k] < |ids| && part[k] == ids[positions[k]])
    && forall k, m :: 0 <= k < m < |part| ==> positions[k] < positions[m]
  }

  lemma PlacesShift(ids: seq<Identity>, part: seq<Identity>, rest: seq<nat>) returns (positions: seq<nat>)
    requires ids != [] && Places(ids[1..], part, rest)
    ensures Places(ids, part, positions) && forall k :: 0 <= k < |positions| ==> positions[k] > 0
  {
    positions := seq(|rest|, k requires 0 <= k < |rest| => rest[k] + 1);
    forall k | 0 <= k < |part|
      ensures positions[k] < |ids| && part[k] == ids[positions[k]]
    {
      assert ids[1..][rest[k]] == ids[rest[k] + 1];
    }
  }

  lemma PlacesCons(ids: seq<Identity>, part: seq<Identity>, positions: seq<nat>)
    requires ids != [] && Places(ids, part, positions) && forall k :: 0 <= k < |positions| ==> positions[k] > 0
    ensures Places(ids, [ids[0]] + part, [0] + positions)
  {
    var p := [0] + positions;
    assert forall k :: 0 < k < |p| ==> p[k] == positions[k - 1];
  }

  lemma {:induction false} SelectStable(tc: TestCase, ids: seq<Identity>, deny: bool) returns (positions: seq<nat>)
    ensures Places(ids, Select(tc, ids, deny), positions)
  {
    hide DenyFirst, Places;
    if ids == [] {
      positions := [];
      NoPlaces(tc, deny);
    } else {
      var rest := SelectStable(tc, ids[1..], deny);
      var tail := Select(tc, ids[1..], deny);
      positions := PlacesShift(ids, tail, rest);
      if DenyFirst(tc, ids[0]) == deny {
        PlacesCons(ids, tail, positions);
        positions := [0] + positions;
      } else {
        assert [] + tail == tail;
      }
    }
  }

  lemma NoPlaces(tc: TestCase, deny: bool)
    ensures Places([], Select(tc, [], deny), [])
  {
  }

  /** Main result: every declared identity occurs exactly as often as it was declared, and when
      writes are verified the deny-expected ones all come before the others. */
  lemma OrderIsPermutation(tc: TestCase) returns (split: nat)
    ensures var order := ExecutionOrder(tc);
      && multiset(order) == multiset(tc.identities)
      && |order| == |tc.identities|
      && (DistinctIdentities(tc.identities) ==> DistinctIdentities(order))
      && split <= |order|
      && (tc.verification.Some? ==> forall i :: 0 <= i < |order| ==> (DenyFirst(tc, order[i]) <==> i < split))
  {
    hide Select, DenyFirst;
    var order := ExecutionOrder(tc);
    split := 0;
    if tc.verification.Some? {
      var a, b := Select(tc, tc.identities, true), Select(tc, tc.identities, false);
      split := |a|;
      SelectMembers(tc, tc.identities, true);
      SelectMembers(tc, tc.identities, false);
      SelectCounts(tc, tc.identities);
      assert forall i :: 0 <= i < |a| ==> order[i] == a[i] && a[i] in a;
      assert forall i :: |a| <= i < |order| ==> order[i] == b[i - |a|] && b[i - |a|] in b;
      if DistinctIdentities(tc.identities) {
        DistinctGroups(tc, a, b);
      }
    }
    assert |multiset(order)| == |multiset(tc.identities)|;
  }

  lemma DistinctGroups(tc: TestCase, a: seq<Identity>, b: seq<Identity>)
    requires DistinctIdentities(a) && DistinctIdentities(b)
    requires forall id :: id in a ==> DenyFirst(tc, id)
    requires forall id :: id in b ==> !DenyFirst(tc, id)
    ensures DistinctIdentities(a + b)
  {
    var order := a + b;
    forall i, j | 0 <= i < j < |order|
      ensures order[i].id != order[j].id
    {
      if i < |a| <= j {
        assert a[i] in a && b[j - |a|] in b;
        assert DenyFirst(tc, order[i]) && !DenyFirst(tc, order[j]);
      }
    }
  }

  /** Within each group the declared order is kept. */
  lemma OrderIsStable(tc: TestCase) returns (split: nat, first: seq<nat>, second: seq<nat>)
    requires tc.verification.Some?
    ensures var order := ExecutionOrder(tc);
      && split <= |order|
      && (forall i :: 0 <= i < |order| ==> (DenyFirst(tc, order[i]) <==> i < split))
      && Places(tc.identities, order[..split], first)
      && Places(tc.identities, order[split..], second)
  {
    hide Places, Select, DenyFirst;
    var order := ExecutionOrder(tc);
    var a, b := Select(tc, tc.identities, true), Select(tc, tc.identities, false);
    split := |a|;
    first := SelectStable(tc, tc.identities, true);
    second := SelectStable(tc, tc.identities, false);
    SelectMembers(tc, tc.identities, true);
    SelectMembers(tc, tc.identities, false);
    assert order[..split] == a && order[split..] == b;
    assert forall i :: 0 <= i < |a| ==> order[i] == a[i] && a[i] in a;
    assert forall i :: |a| <= i < |order| ==> order[i] == b[i - |a|] && b[i - |a|] in b;
  }
}
