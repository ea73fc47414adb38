/** What dotted paths read, told by places in the body: principals at a preflight, and values captured or
    looked at by a deny condition. */
module Readings {
  import opened Basics
  import opened Json
  import opened Pointer
  import opened Model
  import opened Setup
  import Principal
  import Dotted

  // ----- Principals -----

  /** Member by member. */
  function Keys(parts: seq<string>): seq<Step> {
    seq(|parts|, i requires 0 <= i < |parts| => Key(parts[i]))
  }

  /** The names between the dots. */
  ghost predicate Dots(path: string, parts: seq<string>) {
    parts != [] && Joined(parts, '.') == path && forall i :: 0 <= i < |parts| ==> '.' !in parts[i]
  }

  ghost predicate WrittenAs(v: Value, text: string) {
    v == String(text) || v == Num(text) || (v == Bool(true) && text == "true") || (v == Bool(false) && text == "false")
  }

  lemma {:induction false} SelectIsNode(v: Value, parts: seq<string>)
    ensures Principal.Select(v, parts) == NodeAt(v, Keys(parts))
    decreases |parts|
  {
    if parts != [] {
      assert Keys(parts)[1..] == Keys(parts[1..]);
      if v.Object? && parts[0] in v.members {
        SelectIsNode(v.members[parts[0]], parts[1..]);
      }
    }
  }

  lemma {:induction false} OneSplit(parts: seq<string>)
    requires parts != [] && forall i :: 0 <= i < |parts| ==> '.' !in parts[i]
    ensures Split(Joined(parts, '.'), '.') == parts
  {
    if |parts| == 1 {
      SplitConcat(parts[0], "", '.');
    } else {
      OneSplit(parts[1..]);
      SplitConcat(parts[0], Joined(parts[1..], '.'), '.');
    }
  }

  lemma DotsAreParts(path: string, parts: seq<string>)
    ensures Dots(path, parts) <==> parts == Principal.Parts(path)
  {
    SplitPieces(path, '.');
    if Dots(path, parts) {
      OneSplit(parts);
    }
  }

  /** Under the names between the path's dots the value has a scalar written like this. */
  ghost predicate Shows(v: Value, path: string, text: string) {
    exists parts, found :: Dots(path, parts) && NodeAt(v, Keys(parts)) == Some(found) && WrittenAs(found, text)
  }

  lemma TextAtExact(v: Value, path: string, text: string)
    ensures Principal.TextAt(v, path) == Some(text) <==> Shows(v, path, text)
  {
    var parts := Principal.Parts(path);
    DotsAreParts(path, parts);
    SelectIsNode(v, parts);
    forall other | Dots(path, other)
      ensures other == parts
    {
      DotsAreParts(path, other);
    }
    if Principal.TextAt(v, path) == Some(text) {
      assert WrittenAs(Principal.Select(v, parts).value, text);
    }
  }

  /** The body is one document that shows every field as declared. */
  ghost predicate Confirms(body: Raw, fields: map<string, string>) {
    body.Raw? && exists d ::
      && Print(d) == body.tokens && Acceptable(STANDARD_MODE, d, 0)
      && forall path :: path in fields ==> Shows(Meaning(STANDARD_MODE, d), path, fields[path])
  }

  lemma DocumentOf(body: Raw, d: Doc)
    requires body.Raw? && Print(d) == body.tokens
    ensures Principal.Document(body)
         == if Acceptable(STANDARD_MODE, d, 0) then Some(Meaning(STANDARD_MODE, d)) else None
  {
    assert Print(d) + [] == Print(d);
    ParsePrint(STANDARD_MODE, d, 0, []);
  }

  lemma MatchesExact(body: Raw, fields: map<string, string>)
    ensures Principal.Matches(body, fields) <==> Confirms(body, fields)
  {
    hide Shows, Print, Parse, Acceptable, Meaning;
    forall v, path | path in fields
      ensures Principal.TextAt(v, path) == Some(fields[path]) <==> Shows(v, path, fields[path])
    {
      TextAtExact(v, path, fields[path]);
    }
    if Principal.Matches(body, fields) {
      var d := ParseSound(STANDARD_MODE, body.tokens, 0);
      assert Print(d) + [] == Print(d);
      DocumentOf(body, d);
    }
    if Confirms(body, fields) {
      var d :| Print(d) == body.tokens && Acceptable(STANDARD_MODE, d, 0)
        && forall path :: path in fields ==> Shows(Meaning(STANDARD_MODE, d), path, fields[path]);
      DocumentOf(body, d);
    }
  }

  /** Main result: a probe passes exactly when it was answered with the expected status, not a refusal of the
      credential, and with one document that shows every declared field as it is declared; any other answer
      is reported with the first of these that fails. */
  lemma ProbePasses(id: Identity, ex: Execution)
    requires id.preflight.Some?
    ensures var p, r := id.preflight.value, ProbeResult(id, ex);
      var refused := ex.status == 401 || ex.status == 403;
      && r.identityId == id.id && r.status == ex.status
      && (r.passed <==> r.reason.IdentityVerified?)
      && r.reason == (
        if ex.error || ex.errorKind then ExecutionError
        else if refused then CredentialRejected
        else if ex.status != p.expectedStatus then UnexpectedStatus
        else if !Confirms(ex.body, p.fields) then IdentityMismatch
        else IdentityVerified)
  {
    hide Confirms, Principal.Matches;
    MatchesExact(ex.body, id.preflight.value.fields);
  }

  // ----- Values on a dotted path -----

  /** As many members as names, each with its name, arrays of one element being passed through. */
  ghost predicate Leads(v: Value, parts: seq<string>, leaf: Value)
    decreases |parts|, 1
  {
    || Enters(v, parts, leaf)
    || (v.Array? && |v.items| == 1 && Enters(v.items[0], parts, leaf))
  }

  ghost predicate Enters(v: Value, parts: seq<string>, leaf: Value)
    decreases |parts|, 0
  {
    if parts == [] then v == leaf && IsLeaf(leaf)
    else v.Object? && parts[0] in v.members && Leads(v.members[parts[0]], parts[1..], leaf)
  }

  predicate IsLeaf(v: Value) {
    v.String? || v.Num? || v.Bool?
  }

  ghost predicate ShownAs(text: Dotted.Text, leaf: Value, s: string) {
    match leaf
    case String(t) => s == t
    case Num(t) => text.number(t) == Some(s)
    case Bool(b) => s == if b then "true" else "false"
    case _ => false
  }

  /** A path spelled exactly reads the scalar it leads to, whatever else the body holds and in whatever order
      it is looked through. */
  lemma {:induction false} ExactPathReads(text: Dotted.Text, v: Value, parts: seq<string>, order: Dotted.Order,
      leaf: Value, s: string)
    requires Leads(v, parts, leaf)
    ensures Dotted.ValueFrom(text, v, parts, order) == Some(s) <==> ShownAs(text, leaf, s)
    decreases |parts|
  {
    var u := Dotted.Unwrap(v);
    assert Enters(u, parts, leaf);
    if parts != [] {
      Dotted.PickedIs(text, u.members, parts[0], order(|parts|));
      ExactPathReads(text, u.members[parts[0]], parts[1..], order, leaf, s);
    }
  }

  /** The scalars a path can lead to when names count up to case; where a name is spelled exactly no other counts. */
  ghost predicate LeadsUpToCase(text: Dotted.Text, v: Value, parts: seq<string>, leaf: Value)
    decreases |parts|
  {
    var u := if v.Array? && |v.items| == 1 then v.items[0] else v;
    if parts == [] then u == leaf && IsLeaf(leaf)
    else
      && u.Object?
      && exists k :: k in u.members && (k == parts[0] || (parts[0] !in u.members && SameUpToCase(text, k, parts[0])))
                     && LeadsUpToCase(text, u.members[k], parts[1..], leaf)
  }

  ghost predicate SameUpToCase(text: Dotted.Text, a: string, b: string) {
    |a| == |b| && forall i :: 0 <= i < |a| ==> text.fold(a[i]) == text.fold(b[i])
  }

  lemma SameFoldIs(text: Dotted.Text, a: string, b: string)
    ensures Dotted.SameFold(text, a, b) <==> SameUpToCase(text, a, b)
  {
    var c, d := Dotted.Folded(text, a), Dotted.Folded(text, b);
    assert |a| == |c| && |b| == |d|;
    assert forall i :: 0 <= i < |a| ==> c[i] == text.fold(a[i]);
    assert forall i :: 0 <= i < |b| ==> d[i] == text.fold(b[i]);
  }

  /** Main result: a path can be read as a text, in some order of looking, exactly when it leads up to case to a
      scalar that shows so. */
  lemma {:induction false} ReadsExactly(text: Dotted.Text, v: Value, parts: seq<string>, s: string)
    ensures (exists order :: Dotted.ValueFrom(text, v, parts, order) == Some(s))
      <==> exists leaf :: LeadsUpToCase(text, v, parts, leaf) && ShownAs(text, leaf, s)
    decreases |parts|
  {
    hide ShownAs;
    if order :| Dotted.ValueFrom(text, v, parts, order) == Some(s) {
      var leaf := ReadLeads(text, v, parts, order, s);
    }
    if leaf :| LeadsUpToCase(text, v, parts, leaf) && ShownAs(text, leaf, s) {
      var order := LeadsRead(text, v, parts, leaf, s);
    }
  }

  lemma {:induction false} ReadLeads(text: Dotted.Text, v: Value, parts: seq<string>, order: Dotted.Order, s: string)
      returns (leaf: Value)
    requires Dotted.ValueFrom(text, v, parts, order) == Some(s)
    ensures LeadsUpToCase(text, v, parts, leaf) && ShownAs(text, leaf, s)
    decreases |parts|
  {
    var u := Dotted.Unwrap(v);
    leaf := u;
    if parts != [] {
      Dotted.PickedIs(text, u.members, parts[0], order(|parts|));
      var k := Dotted.Picked(text, u.members, parts[0], order(|parts|)).value;
      SameFoldIs(text, k, parts[0]);
      leaf := ReadLeads(text, u.members[k], parts[1..], order, s);
    }
  }

  lemma {:induction false} LeadsRead(text: Dotted.Text, v: Value, parts: seq<string>, leaf: Value, s: string)
      returns (order: Dotted.Order)
    requires LeadsUpToCase(text, v, parts, leaf) && ShownAs(text, leaf, s)
    ensures Dotted.ValueFrom(text, v, parts, order) == Some(s)
    decreases |parts|
  {
    order := Dotted.ASCENDING;
    var u := Dotted.Unwrap(v);
    if parts != [] {
      var k :| k in u.members && (k == parts[0] || (parts[0] !in u.members && SameUpToCase(text, k, parts[0])))
        && LeadsUpToCase(text, u.members[k], parts[1..], leaf);
      SameFoldIs(text, k, parts[0]);
      var rest := LeadsRead(text, u.members[k], parts[1..], leaf, s);
      order := Dotted.But(rest, |parts|, k);
      Dotted.PickedIs(text, u.members, parts[0], k);
      Dotted.LaterOnly(text, u.members[k], parts[1..], rest, |parts|, k);
    }
  }
}
