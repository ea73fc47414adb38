/** What the decoders accept and what they make of it, told place by place: every part of a document is
    looked at where it stands, instead of as a parser meets it. */
module Limits {
  import opened Basics
  import opened Number
  import opened Json
  import opened Pointer

  /** A place in a document: at each level which item or member. */
  type Place = seq<nat>

  ghost function Part(d: Doc, at: Place): Option<Doc> {
    if at == [] then Some(d)
    else
      match d
      case Scalar(_) => None
      case ArrayDoc(items) => if at[0] < |items| then Part(items[at[0]], at[1..]) else None
      case ObjectDoc(members) => if at[0] < |members| then Part(members[at[0]].value, at[1..]) else None
  }

  /** What one part says about itself, without the parts inside it. */
  ghost predicate Fits(m: Mode, d: Doc, depth: nat) {
    && (m.maxDepth < 0 || depth <= m.maxDepth)
    && (d.Scalar? || m.maxOpen < 0 || depth < m.maxOpen)
    && (d.Scalar? && d.token.NumberToken? ==> m.maxNumber < 0 || |d.token.n.Text()| <= m.maxNumber)
    && (d.ObjectDoc? && m.rejectDuplicates ==> NoKeyTwice(d.members))
  }

  ghost predicate NoKeyTwice(members: seq<Member>) {
    forall i, j :: 0 <= i < |members| && 0 <= j < |members| && members[i].key == members[j].key ==> i == j
  }

  ghost predicate FitsThroughout(m: Mode, d: Doc, depth: nat) {
    forall at: Place :: Part(d, at).Some? ==> Fits(m, Part(d, at).value, depth + |at|)
  }

  lemma FitsHere(m: Mode, d: Doc, depth: nat)
    requires FitsThroughout(m, d, depth)
    ensures Fits(m, d, depth)
  {
    assert Part(d, []) == Some(d);
  }

  lemma FitsInside(m: Mode, d: Doc, depth: nat, i: nat)
    requires FitsThroughout(m, d, depth) && Part(d, [i]).Some?
    ensures FitsThroughout(m, Part(d, [i]).value, depth + 1)
  {
    var e := Part(d, [i]).value;
    assert [i][1..] == [];
    forall at: Place | Part(e, at).Some?
      ensures Fits(m, Part(e, at).value, depth + 1 + |at|)
    {
      assert ([i] + at)[1..] == at;
      assert Part(d, [i] + at) == Part(e, at);
      assert depth + |[i] + at| == depth + 1 + |at|;
    }
  }

  lemma FitsFrom(m: Mode, d: Doc, depth: nat)
    requires Fits(m, d, depth)
    requires forall i: nat :: Part(d, [i]).Some? ==> FitsThroughout(m, Part(d, [i]).value, depth + 1)
    ensures FitsThroughout(m, d, depth)
  {
    forall at: Place | Part(d, at).Some?
      ensures Fits(m, Part(d, at).value, depth + |at|)
    {
      if at != [] {
        assert [at[0]][1..] == [];
        assert Part(d, [at[0]]).Some?;
        assert Part(d, at) == Part(Part(d, [at[0]]).value, at[1..]);
        assert depth + 1 + |at[1..]| == depth + |at|;
      }
    }
  }

  /** A document is acceptable exactly when each of its parts fits where it stands. */
  lemma {:induction false} AcceptableIff(m: Mode, d: Doc, depth: nat)
    ensures Acceptable(m, d, depth) <==> FitsThroughout(m, d, depth)
    decreases d
  {
    hide FitsThroughout;
    forall i: nat | Part(d, [i]).Some?
      ensures Acceptable(m, Part(d, [i]).value, depth + 1) <==> FitsThroughout(m, Part(d, [i]).value, depth + 1)
    {
      PartOnce(d, i);
      if d.ArrayDoc? {
        AcceptableIff(m, d.items[i], depth + 1);
      } else {
        AcceptableIff(m, d.members[i].value, depth + 1);
      }
    }
    if FitsThroughout(m, d, depth) {
      FitsHere(m, d, depth);
      forall i: nat | Part(d, [i]).Some?
        ensures FitsThroughout(m, Part(d, [i]).value, depth + 1)
      {
        FitsInside(m, d, depth, i);
      }
      FromParts(m, d, depth);
    }
    if Acceptable(m, d, depth) {
      PartsOnce(m, d, depth);
      FitsFrom(m, d, depth);
    }
  }

  lemma FromParts(m: Mode, d: Doc, depth: nat)
    requires Fits(m, d, depth)
    requires forall i: nat :: Part(d, [i]).Some? ==> Acceptable(m, Part(d, [i]).value, depth + 1)
    ensures Acceptable(m, d, depth)
  {
    hide Part;
    forall i: nat
      ensures d.ArrayDoc? && i < |d.items| ==> Acceptable(m, d.items[i], depth + 1)
      ensures d.ObjectDoc? && i < |d.members| ==> Acceptable(m, d.members[i].value, depth + 1)
    {
      PartOnce(d, i);
    }
  }

  lemma PartsOnce(m: Mode, d: Doc, depth: nat)
    requires Acceptable(m, d, depth)
    ensures Fits(m, d, depth)
    ensures forall i: nat :: Part(d, [i]).Some? ==> Acceptable(m, Part(d, [i]).value, depth + 1)
  {
    hide Part;
    forall i: nat | Part(d, [i]).Some?
      ensures Acceptable(m, Part(d, [i]).value, depth + 1)
    {
      PartOnce(d, i);
    }
  }

  lemma PartOnce(d: Doc, i: nat)
    ensures Part(d, [i]) ==
      if d.ArrayDoc? && i < |d.items| then Some(d.items[i])
      else if d.ObjectDoc? && i < |d.members| then Some(d.members[i].value)
      else None
  {
    assert [i][1..] == [];
  }

  // ----- The limits of each decoder -----

  /** At most 64 levels below the document, numbers of at most 128 characters, and no key twice in an object. */
  ghost predicate AssertionDocument(d: Doc) {
    forall at: Place :: Part(d, at).Some? ==>
      var e := Part(d, at).value;
      && |at| <= 64
      && (e.Scalar? && e.token.NumberToken? ==> |e.token.n.Text()| <= 128)
      && (e.ObjectDoc? ==> NoKeyTwice(e.members))
  }

  /** Main result: a text decodes to a value exactly when it is one document within these limits that means it. */
  lemma DecodeExact(raw: Raw, v: Value)
    ensures Decode(raw) == Some(v) <==>
      raw.Raw? && raw.utf8 && exists d :: Print(d) == raw.tokens && AssertionDocument(d)
                                          && Meaning(ASSERTION_MODE, d) == v
  {
    hide Acceptable, Meaning, Print, ParseAll, Part, AssertionDocument;
    ParseAllExact(ASSERTION_MODE, raw, v);
    forall d
      ensures Acceptable(ASSERTION_MODE, d, 0) <==> AssertionDocument(d)
    {
      AcceptableIff(ASSERTION_MODE, d, 0);
      AssertionFits(d);
    }
  }

  lemma AssertionFits(d: Doc)
    ensures FitsThroughout(ASSERTION_MODE, d, 0) <==> AssertionDocument(d)
  {
    hide Part, NoKeyTwice;
  }

  /** The ordinary decoder opens at most 10000 containers within each other and sets no other limit. */
  lemma StandardAccepts(d: Doc)
    ensures Acceptable(STANDARD_MODE, d, 0)
      <==> forall at: Place :: Part(d, at).Some? && !Part(d, at).value.Scalar? ==> |at| < 10000
  {
    hide Acceptable, Part, NoKeyTwice;
    AcceptableIff(STANDARD_MODE, d, 0);
  }

  /** The duplicate-key checker looks at keys, and at levels if it is given a limit. */
  lemma UniqueAccepts(d: Doc, maxDepth: int)
    ensures Acceptable(UniqueMode(maxDepth), d, 0)
      <==> forall at: Place :: Part(d, at).Some? ==>
             && (maxDepth >= 0 ==> |at| <= maxDepth)
             && (Part(d, at).value.ObjectDoc? ==> NoKeyTwice(Part(d, at).value.members))
  {
    hide Acceptable, Part, NoKeyTwice;
    AcceptableIff(UniqueMode(maxDepth), d, 0);
  }

  // ----- What the parts mean -----

  /** The way to a place in the value: member names and element positions. */
  ghost function Way(d: Doc, at: Place): seq<Step>
    requires Part(d, at).Some?
  {
    if at == [] then []
    else
      match d
      case ArrayDoc(items) => [Index(at[0])] + Way(items[at[0]], at[1..])
      case ObjectDoc(members) => [Key(members[at[0]].key)] + Way(members[at[0]].value, at[1..])
  }

  /** The value of a part: scalars as they are, containers with as many elements or with just these names. */
  ghost predicate Denotes(m: Mode, e: Doc, v: Value) {
    match e
    case ArrayDoc(items) => v.Array? && |v.items| == |items|
    case ObjectDoc(members) => v.Object? && forall k :: k in v.members <==> exists i ::
      0 <= i < |members| && members[i].key == k
    case Scalar(t) =>
      match t
      case StringToken(s) => v == String(s)
      case NumberToken(n) => v == Num(if m.exactNumbers then Normalized(n) else n.Text())
      case BoolToken(b) => v == Bool(b)
      case NullToken => v == Null
  }

  ghost predicate KeysDiffer(d: Doc) {
    forall at: Place :: Part(d, at).Some? && Part(d, at).value.ObjectDoc? ==> NoKeyTwice(Part(d, at).value.members)
  }

  lemma KeysDifferInside(d: Doc, i: nat)
    requires KeysDiffer(d) && Part(d, [i]).Some?
    ensures KeysDiffer(Part(d, [i]).value)
  {
    var e := Part(d, [i]).value;
    assert [i][1..] == [];
    forall at: Place | Part(e, at).Some? && Part(e, at).value.ObjectDoc?
      ensures NoKeyTwice(Part(e, at).value.members)
    {
      assert ([i] + at)[1..] == at;
      assert Part(d, [i] + at) == Part(e, at);
    }
  }

  lemma DenotesHere(m: Mode, d: Doc)
    requires d.ObjectDoc? ==> NoKeyTwice(d.members)
    ensures Denotes(m, d, Meaning(m, d))
  {
    if d.ArrayDoc? {
      ItemsMeaningAt(m, d.items);
    } else if d.ObjectDoc? {
      MembersMeaningAt(m, d.members, map[]);
    }
  }

  /** Main result: in a document without repeated keys every part means, at its own place, just what it says. */
  lemma {:induction false} PartsMean(m: Mode, d: Doc, at: Place)
    requires KeysDiffer(d) && Part(d, at).Some?
    ensures var found := NodeAt(Meaning(m, d), Way(d, at));
      found.Some? && found.value == Meaning(m, Part(d, at).value) && Denotes(m, Part(d, at).value, found.value)
    decreases |at|
  {
    hide KeysDiffer, Denotes;
    KeysDifferHere(d);
    if at == [] {
      DenotesHere(m, d);
    } else {
      assert [at[0]][1..] == [];
      KeysDifferInside(d, at[0]);
      var e := Part(d, [at[0]]).value;
      PartsMean(m, e, at[1..]);
      assert Way(d, at)[1..] == Way(e, at[1..]);
      if d.ArrayDoc? {
        ItemsMeaningAt(m, d.items);
      } else {
        MembersMeaningAt(m, d.members, map[]);
      }
    }
  }

  lemma KeysDifferHere(d: Doc)
    requires KeysDiffer(d)
    ensures d.ObjectDoc? ==> NoKeyTwice(d.members)
  {
    assert Part(d, []) == Some(d);
  }
}
