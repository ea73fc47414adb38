/** JSON documents as token streams: syntax trees, the values they denote, and
    one recursive-descent parser whose limits are given by a Mode. The assertion
    decoder, the duplicate-key checker and the standard decoder are three modes. */
module Json {
  import opened Basics
  import opened Number

  /** The tokens a decoder can see; Junk is text that is not a JSON token. */
  datatype Token =
    | OpenObject
    | CloseObject
    | OpenArray
    | CloseArray
    | StringToken(s: string)
    | NumberToken(n: Numeral)
    | BoolToken(b: bool)
    | NullToken
    | Junk

  predicate IsScalar(t: Token) {
    t.StringToken? || t.NumberToken? || t.BoolToken? || t.NullToken?
  }

  type ScalarToken = t: Token | IsScalar(t) witness NullToken

  /** Raw document bytes: nothing at all, or a tokenised text. */
  datatype Raw = Absent | Raw(utf8: bool, tokens: seq<Token>)

  datatype Value =
    | Null
    | Bool(b: bool)
    | String(s: string)
    | Num(text: string)
    | Array(items: seq<Value>)
    | Object(members: map<string, Value>)

  datatype Member = Member(key: string, value: Doc)

  datatype Doc =
    | Scalar(token: ScalarToken)
    | ArrayDoc(items: seq<Doc>)
    | ObjectDoc(members: seq<Member>)

  /** Limits of a decoder; a negative limit means none. maxDepth bounds the depth
      of any value, maxOpen the number of enclosing containers when one opens. */
  datatype Mode = Mode(maxDepth: int, maxOpen: int, maxNumber: int, exactNumbers: bool, rejectDuplicates: bool) {

    predicate DepthOk(depth: nat) {
      maxDepth >= 0 ==> depth <= maxDepth
    }

    predicate OpenOk(depth: nat) {
      maxOpen >= 0 ==> depth < maxOpen
    }

    predicate ScalarOk(t: Token) {
      IsScalar(t) && (maxNumber >= 0 && t.NumberToken? ==> |t.n.Text()| <= maxNumber)
    }

    function ScalarValue(t: ScalarToken): Value {
      match t
      case StringToken(s) => String(s)
      case NumberToken(n) => Num(if exactNumbers then Normalized(n) else n.Text())
      case BoolToken(b) => Bool(b)
      case NullToken => Null
    }
  }

  const ASSERTION_MODE := Mode(64, -1, 128, true, true)
  const STANDARD_MODE := Mode(-1, 10000, -1, false, false)

  function UniqueMode(maxDepth: int): Mode {
    Mode(maxDepth, -1, -1, false, true)
  }

  // ----- Printing and meaning of syntax trees -----

  function Print(d: Doc): seq<Token>
    decreases d, 0
  {
    match d
    case Scalar(t) => [t]
    case ArrayDoc(items) => [OpenArray] + (PrintItems(items) + [CloseArray])
    case ObjectDoc(members) => [OpenObject] + (PrintMembers(members) + [CloseObject])
  }

  function PrintItems(items: seq<Doc>): seq<Token>
    decreases items, 0
  {
    if items == [] then [] else Print(items[0]) + PrintItems(items[1..])
  }

  function PrintMembers(members: seq<Member>): seq<Token>
    decreases members, 0
  {
    if members == [] then []
    else [StringToken(members[0].key)] + (Print(members[0].value) + PrintMembers(members[1..]))
  }

  function Meaning(m: Mode, d: Doc): Value
    decreases d, 0
  {
    match d
    case Scalar(t) => m.ScalarValue(t)
    case ArrayDoc(items) => Array(ItemsMeaning(m, items))
    case ObjectDoc(members) => Object(MembersMeaning(m, members, map[]))
  }

  function ItemsMeaning(m: Mode, items: seq<Doc>): seq<Value>
    decreases items, 0
  {
    if items == [] then [] else [Meaning(m, items[0])] + ItemsMeaning(m, items[1..])
  }

  /** A later duplicate key replaces an earlier one. */
  function MembersMeaning(m: Mode, members: seq<Member>, acc: map<string, Value>): map<string, Value>
    decreases members, 0
  {
    if members == [] then acc
    else MembersMeaning(m, members[1..], acc[members[0].key := Meaning(m, members[0].value)])
  }

  ghost predicate DistinctKeys(members: seq<Member>) {
    forall i, j :: 0 <= i < j < |members| ==> members[i].key != members[j].key
  }

  /** What a decoder in mode m accepts: shallow enough, short enough numbers, distinct keys. */
  ghost predicate Acceptable(m: Mode, d: Doc, depth: nat)
    decreases d, 0
  {
    && m.DepthOk(depth)
    && match d
       case Scalar(t) => m.ScalarOk(t)
       case ArrayDoc(items) => m.OpenOk(depth) && AllItems(m, items, depth + 1)
       case ObjectDoc(members) =>
         && m.OpenOk(depth)
         && (m.rejectDuplicates ==> DistinctKeys(members))
         && AllMembers(m, members, depth + 1)
  }

  ghost predicate AllItems(m: Mode, items: seq<Doc>, depth: nat)
    decreases items, 0
  {
    forall i :: 0 <= i < |items| ==> Acceptable(m, items[i], depth)
  }

  ghost predicate AllMembers(m: Mode, members: seq<Member>, depth: nat)
    decreases members, 0
  {
    forall i :: 0 <= i < |members| ==> Acceptable(m, members[i].value, depth)
  }

  lemma AllItemsStep(m: Mode, items: seq<Doc>, depth: nat)
    requires items != []
    ensures AllItems(m, items, depth) <==> Acceptable(m, items[0], depth) && AllItems(m, items[1..], depth)
  {
    assert forall i :: 0 < i < |items| ==> items[i] == items[1..][i - 1];
  }

  lemma AllMembersStep(m: Mode, members: seq<Member>, depth: nat)
    requires members != []
    ensures AllMembers(m, members, depth)
      <==> Acceptable(m, members[0].value, depth) && AllMembers(m, members[1..], depth)
  {
    assert forall i :: 0 < i < |members| ==> members[i] == members[1..][i - 1];
  }

  // ----- Where the values of items and members are found -----

  lemma {:induction false} ItemsMeaningAt(m: Mode, items: seq<Doc>)
    ensures var vs := ItemsMeaning(m, items);
      |vs| == |items| && forall i :: 0 <= i < |items| ==> vs[i] == Meaning(m, items[i])
    decreases |items|
  {
    if items != [] {
      ItemsMeaningAt(m, items[1..]);
      assert forall i :: 0 < i < |items| ==> items[i] == items[1..][i - 1];
    }
  }

  lemma {:induction false} MembersMeaningAt(m: Mode, members: seq<Member>, acc: map<string, Value>)
    requires DistinctKeys(members) && forall i :: 0 <= i < |members| ==> members[i].key !in acc
    ensures var r := MembersMeaning(m, members, acc);
      && (forall k :: k in acc ==> k in r && r[k] == acc[k])
      && (forall i :: 0 <= i < |members| ==> members[i].key in r && r[members[i].key] == Meaning(m, members[i].value))
      && (forall k :: k in r ==> k in acc || exists i :: 0 <= i < |members| && members[i].key == k)
    decreases |members|
  {
    if members != [] {
      var rest := members[1..];
      assert forall i :: 0 <= i < |rest| ==> rest[i] == members[i + 1];
      MembersMeaningAt(m, rest, acc[members[0].key := Meaning(m, members[0].value)]);
      assert forall i :: 0 < i < |members| ==> members[i] == rest[i - 1];
    }
  }

  /** Each value comes from a member, the last with its key. */
  lemma {:induction false} MembersMeaningFrom(m: Mode, members: seq<Member>, acc: map<string, Value>, k: string)
    requires k in MembersMeaning(m, members, acc)
    ensures var v := MembersMeaning(m, members, acc)[k];
      || (k in acc && v == acc[k])
      || exists i :: 0 <= i < |members| && members[i].key == k && v == Meaning(m, members[i].value)
    decreases |members|
  {
    if members != [] {
      var rest := members[1..];
      MembersMeaningFrom(m, rest, acc[members[0].key := Meaning(m, members[0].value)], k);
      assert forall i :: 0 <= i < |rest| ==> rest[i] == members[i + 1];
      assert members[0].key == members[0].key;
    }
  }

  // ----- The parser -----

  ghost predicate IsSuffix(rest: seq<Token>, ts: seq<Token>) {
    |rest| <= |ts| && rest == ts[|ts| - |rest|..]
  }

  function Parse(m: Mode, ts: seq<Token>, depth: nat): (r: Option<(Value, seq<Token>)>)
    ensures r.Some? ==> |r.value.1| < |ts| && IsSuffix(r.value.1, ts)
    decreases |ts|, 0
  {
    if !m.DepthOk(depth) || ts == [] then None
    else if ts[0].OpenObject? then
      if m.OpenOk(depth) then ParseMembers(m, ts[1..], depth, map[]) else None
    else if ts[0].OpenArray? then
      if m.OpenOk(depth) then ParseItems(m, ts[1..], depth, []) else None
    else if m.ScalarOk(ts[0]) then Some((m.ScalarValue(ts[0]), ts[1..]))
    else None
  }

  function ParseItems(m: Mode, ts: seq<Token>, depth: nat, acc: seq<Value>): (r: Option<(Value, seq<Token>)>)
    ensures r.Some? ==> |r.value.1| < |ts| && IsSuffix(r.value.1, ts)
    decreases |ts|, 1
  {
    if ts == [] then None
    else if ts[0].CloseArray? then Some((Array(acc), ts[1..]))
    else
      var (v, rest) :- Parse(m, ts, depth + 1);
      ParseItems(m, rest, depth, acc + [v])
  }

  function ParseMembers(m: Mode, ts: seq<Token>, depth: nat, acc: map<string, Value>): (r: Option<(Value, seq<Token>)>)
    ensures r.Some? ==> |r.value.1| < |ts| && IsSuffix(r.value.1, ts)
    decreases |ts|, 1
  {
    if ts == [] then None
    else if ts[0].CloseObject? then Some((Object(acc), ts[1..]))
    else if !ts[0].StringToken? || (m.rejectDuplicates && ts[0].s in acc) then None
    else
      var (v, rest) :- Parse(m, ts[1..], depth + 1);
      ParseMembers(m, rest, depth, acc[ts[0].s := v])
  }

  /** One document and nothing after it. */
  function ParseAll(m: Mode, raw: Raw): Option<Value> {
    if raw.Absent? || !raw.utf8 then None
    else
      var (v, rest) :- Parse(m, raw.tokens, 0);
      if rest == [] then Some(v) else None
  }

  /** The value an assertion body denotes. */
  function Decode(raw: Raw): Option<Value> {
    ParseAll(ASSERTION_MODE, raw)
  }

  // ----- Round trip -----

  /** On a printed document the parser returns its meaning and leaves the rest of the
      stream, when the document is acceptable; otherwise it fails. */
  lemma {:induction false} ParsePrint(m: Mode, d: Doc, depth: nat, rest: seq<Token>)
    ensures Parse(m, Print(d) + rest, depth) == if Acceptable(m, d, depth) then Some((Meaning(m, d), rest)) else None
    decreases d, 1
  {
    hide AllItems, AllMembers, ParseItems, ParseMembers, PrintItems, PrintMembers;
    var ts := Print(d) + rest;
    match d
    case Scalar(t) =>
      assert ts[0] == t && ts[1..] == rest;
    case ArrayDoc(items) =>
      assert ts[0] == OpenArray && ts[1..] == PrintItems(items) + ([CloseArray] + rest);
      ParsePrintItems(m, items, depth, rest, []);
      assert [] + ItemsMeaning(m, items) == ItemsMeaning(m, items);
    case ObjectDoc(members) =>
      var none: map<string, Value> := map[];
      assert ts[0] == OpenObject && ts[1..] == PrintMembers(members) + ([CloseObject] + rest);
      ParsePrintMembers(m, members, depth, rest, none);
      assert KeysOk(m, members, none.Keys) <==> (m.rejectDuplicates ==> DistinctKeys(members));
  }

  lemma {:induction false} PrintStart(d: Doc)
    ensures Print(d) != [] && !Print(d)[0].CloseArray? && !Print(d)[0].CloseObject?
  {
  }

  lemma {:induction false} ParsePrintItems(m: Mode, items: seq<Doc>, depth: nat, rest: seq<Token>, acc: seq<Value>)
    ensures ParseItems(m, PrintItems(items) + ([CloseArray] + rest), depth, acc)
         == if AllItems(m, items, depth + 1)
            then Some((Array(acc + ItemsMeaning(m, items)), rest)) else None
    decreases items, 0
  {
    var tail := [CloseArray] + rest;
    if items == [] {
      assert PrintItems(items) + tail == tail;
      assert acc + ItemsMeaning(m, items) == acc;
      assert tail[1..] == rest;
    } else {
      var d, others := items[0], items[1..];
      var after := PrintItems(others) + tail;
      assert PrintItems(items) + tail == Print(d) + after;
      PrintStart(d);
      AllItemsStep(m, items, depth + 1);
      ParsePrint(m, d, depth + 1, after);
      if Acceptable(m, d, depth + 1) {
        var v := Meaning(m, d);
        ParsePrintItems(m, others, depth, rest, acc + [v]);
        assert (acc + [v]) + ItemsMeaning(m, others) == acc + ItemsMeaning(m, items);
      }
    }
  }

  ghost predicate KeysOk(m: Mode, members: seq<Member>, seen: set<string>) {
    m.rejectDuplicates ==> DistinctKeys(members) && forall i :: 0 <= i < |members| ==> members[i].key !in seen
  }

  lemma NoMembersOk(m: Mode, depth: nat, seen: set<string>)
    ensures KeysOk(m, [], seen) && AllMembers(m, [], depth)
  {
  }

  lemma KeysOkStep(m: Mode, members: seq<Member>, seen: set<string>)
    requires members != []
    ensures KeysOk(m, members, seen)
      <==> (m.rejectDuplicates ==> members[0].key !in seen) && KeysOk(m, members[1..], seen + {members[0].key})
  {
    var others := members[1..];
    assert forall i :: 0 < i < |members| ==> members[i] == others[i - 1];
    if KeysOk(m, others, seen + {members[0].key}) && m.rejectDuplicates {
      forall i, j | 0 <= i < j < |members|
        ensures members[i].key != members[j].key
      {
        assert members[j] == others[j - 1];
        assert i > 0 ==> members[i] == others[i - 1];
      }
    }
  }

  lemma ParseMembersStep(m: Mode, ts: seq<Token>, depth: nat, acc: map<string, Value>)
    requires ts != [] && ts[0].StringToken?
    ensures ParseMembers(m, ts, depth, acc)
         == if m.rejectDuplicates && ts[0].s in acc then None
            else var r := Parse(m, ts[1..], depth + 1);
                 if r.None? then None else ParseMembers(m, r.value.1, depth, acc[ts[0].s := r.value.0])
  {
  }

  lemma {:induction false} ParsePrintMembers(m: Mode, members: seq<Member>, depth: nat, rest: seq<Token>,
      acc: map<string, Value>)
    ensures ParseMembers(m, PrintMembers(members) + ([CloseObject] + rest), depth, acc)
         == if KeysOk(m, members, acc.Keys) && AllMembers(m, members, depth + 1)
            then Some((Object(MembersMeaning(m, members, acc)), rest)) else None
    decreases members, 0
  {
    hide Print, Parse, Acceptable, Meaning, AllMembers, KeysOk, ParseItems;
    var tail := [CloseObject] + rest;
    if members == [] {
      assert KeysOk(m, members, acc.Keys) && AllMembers(m, members, depth + 1) by {
        NoMembersOk(m, depth + 1, acc.Keys);
      }
      assert PrintMembers(members) + tail == tail;
      assert tail[1..] == rest;
    } else {
      var key, d, others := members[0].key, members[0].value, members[1..];
      var after := PrintMembers(others) + tail;
      var ts := PrintMembers(members) + tail;
      assert ts[0] == StringToken(key) && ts[1..] == Print(d) + after;
      KeysOkStep(m, members, acc.Keys);
      AllMembersStep(m, members, depth + 1);
      ParsePrint(m, d, depth + 1, after);
      ParseMembersStep(m, ts, depth, acc);
      if Acceptable(m, d, depth + 1) {
        var next := acc[key := Meaning(m, d)];
        assert next.Keys == acc.Keys + {key};
        ParsePrintMembers(m, others, depth, rest, next);
      }
    }
  }

  // ----- Soundness: whatever is accepted is the print of a document -----

  lemma {:induction false} ParsedPrints(m: Mode, ts: seq<Token>, depth: nat) returns (d: Doc)
    requires Parse(m, ts, depth).Some?
    ensures ts == Print(d) + Parse(m, ts, depth).value.1
    decreases |ts|, 0
  {
    hide ParseItems, ParseMembers, PrintItems, PrintMembers;
    if ts[0].OpenObject? {
      var members := MembersSound(m, ts[1..], depth, map[]);
      d := ObjectDoc(members);
      assert ts == [OpenObject] + ts[1..];
    } else if ts[0].OpenArray? {
      var items := ItemsSound(m, ts[1..], depth, []);
      d := ArrayDoc(items);
      assert ts == [OpenArray] + ts[1..];
    } else {
      d := Scalar(ts[0]);
    }
  }

  lemma {:induction false} ItemsSound(m: Mode, ts: seq<Token>, depth: nat, acc: seq<Value>) returns (items: seq<Doc>)
    requires ParseItems(m, ts, depth, acc).Some?
    ensures ts == PrintItems(items) + ([CloseArray] + ParseItems(m, ts, depth, acc).value.1)
    decreases |ts|, 1
  {
    hide Parse, ParseMembers, Print, PrintMembers;
    if ts[0].CloseArray? {
      items := [];
    } else {
      var (v, rest) := Parse(m, ts, depth + 1).value;
      var d := ParsedPrints(m, ts, depth + 1);
      var others := ItemsSound(m, rest, depth, acc + [v]);
      items := [d] + others;
      assert items[1..] == others;
    }
  }

  lemma {:induction false} MembersSound(m: Mode, ts: seq<Token>, depth: nat,
      acc: map<string, Value>) returns (members: seq<Member>)
    requires ParseMembers(m, ts, depth, acc).Some?
    ensures ts == PrintMembers(members) + ([CloseObject] + ParseMembers(m, ts, depth, acc).value.1)
    decreases |ts|, 1
  {
    hide Parse, ParseItems, Print, PrintItems;
    if ts[0].CloseObject? {
      members := [];
    } else {
      var (v, rest) := Parse(m, ts[1..], depth + 1).value;
      var d := ParsedPrints(m, ts[1..], depth + 1);
      var others := MembersSound(m, rest, depth, acc[ts[0].s := v]);
      members := [Member(ts[0].s, d)] + others;
      assert members[1..] == others;
      assert ts == [ts[0]] + ts[1..];
    }
  }

  /** Whatever is accepted, in front of whatever, is the print of an acceptable document, and what is
      returned is that document's meaning. */
  lemma ParseSound(m: Mode, ts: seq<Token>, depth: nat) returns (d: Doc)
    requires Parse(m, ts, depth).Some?
    ensures var (v, rest) := Parse(m, ts, depth).value;
      ts == Print(d) + rest && Acceptable(m, d, depth) && Meaning(m, d) == v
  {
    hide Parse, Acceptable, Meaning, Print;
    d := ParsedPrints(m, ts, depth);
    ParsePrint(m, d, depth, Parse(m, ts, depth).value.1);
  }

  /** Main result: a text decodes to v exactly when it prints an acceptable document meaning v. */
  lemma ParseAllExact(m: Mode, raw: Raw, v: Value)
    ensures ParseAll(m, raw) == Some(v)
      <==> raw.Raw? && raw.utf8 && exists d :: Print(d) == raw.tokens && Acceptable(m, d, 0) && Meaning(m, d) == v
  {
    if raw.Raw? && raw.utf8 {
      if ParseAll(m, raw) == Some(v) {
        var d := ParseSound(m, raw.tokens, 0);
        assert Print(d) + [] == Print(d);
        ParsePrint(m, d, 0, []);
        assert Print(d) == raw.tokens;
      }
      forall d | Print(d) == raw.tokens && Acceptable(m, d, 0) && Meaning(m, d) == v
        ensures ParseAll(m, raw) == Some(v)
      {
        assert Print(d) + [] == Print(d);
        ParsePrint(m, d, 0, []);
      }
    }
  }

  // ----- Decoded numbers compare by value -----

  /** The body that is this number. */
  function NumberBody(n: Numeral): Raw {
    Raw(true, [NumberToken(n)])
  }

  lemma DecodedNumber(n: Numeral)
    requires |n.Text()| <= 128
    ensures Decode(NumberBody(n)) == Some(Num(Normalized(n)))
  {
    assert NumberBody(n).tokens[1..] == [];
  }

  /** Two numbers within the length limit decode to the same value exactly when they denote the same
      rational, however they are written. */
  lemma NumbersDecodeByValue(a: Numeral, b: Numeral)
    requires |a.Text()| <= 128 && |b.Text()| <= 128
    ensures Decode(NumberBody(a)).Some?
    ensures Decode(NumberBody(a)) == Decode(NumberBody(b)) <==> Number.Value(a) == Number.Value(b)
  {
    hide Decode, Normalized, Number.Value;
    DecodedNumber(a);
    DecodedNumber(b);
    NormalizedIffEqualValue(a, b);
  }

  /** The same document up to how its numbers are written, and which numbers they are. */
  ghost predicate Respelled(d: Doc, e: Doc)
    decreases d
  {
    match d
    case Scalar(t) => e.Scalar? && (t == e.token || (t.NumberToken? && e.token.NumberToken?))
    case ArrayDoc(items) =>
      && e.ArrayDoc? && |items| == |e.items|
      && forall i :: 0 <= i < |items| ==> Respelled(items[i], e.items[i])
    case ObjectDoc(members) =>
      && e.ObjectDoc? && |members| == |e.members|
      && forall i :: 0 <= i < |members| ==>
           members[i].key == e.members[i].key && Respelled(members[i].value, e.members[i].value)
  }

  /** Numbers in the same place denote the same rational. */
  ghost predicate EqualNumbers(d: Doc, e: Doc)
    requires Respelled(d, e)
    decreases d
  {
    match d
    case Scalar(t) => t.NumberToken? ==> Number.Value(t.n) == Number.Value(e.token.n)
    case ArrayDoc(items) => forall i :: 0 <= i < |items| ==> EqualNumbers(items[i], e.items[i])
    case ObjectDoc(members) => forall i :: 0 <= i < |members| ==> EqualNumbers(members[i].value, e.members[i].value)
  }

  lemma {:induction false} RespelledMeans(d: Doc, e: Doc, depth: nat)
    requires Respelled(d, e) && Acceptable(ASSERTION_MODE, d, depth) && Acceptable(ASSERTION_MODE, e, depth)
    ensures Meaning(ASSERTION_MODE, d) == Meaning(ASSERTION_MODE, e) <==> EqualNumbers(d, e)
    decreases d
  {
    match d
    case Scalar(t) =>
      if t.NumberToken? {
        NormalizedIffEqualValue(t.n, e.token.n);
      }
    case ArrayDoc(items) =>
      hide Meaning, Acceptable;
      forall i | 0 <= i < |items|
        ensures Meaning(ASSERTION_MODE, items[i]) == Meaning(ASSERTION_MODE, e.items[i])
          <==> EqualNumbers(items[i], e.items[i])
      {
        ItemAcceptable(d, i, depth);
        ItemAcceptable(e, i, depth);
        RespelledMeans(items[i], e.items[i], depth + 1);
      }
      SameItems(items, e.items);
    case ObjectDoc(members) =>
      hide Meaning, Acceptable;
      forall i | 0 <= i < |members|
        ensures Meaning(ASSERTION_MODE, members[i].value) == Meaning(ASSERTION_MODE, e.members[i].value)
          <==> EqualNumbers(members[i].value, e.members[i].value)
      {
        MemberAcceptable(d, i, depth);
        MemberAcceptable(e, i, depth);
        RespelledMeans(members[i].value, e.members[i].value, depth + 1);
      }
      assert DistinctKeys(members) && DistinctKeys(e.members) by { KeysAcceptable(d, depth); KeysAcceptable(e, depth); }
      SameMembers(members, e.members);
  }

  lemma ItemAcceptable(d: Doc, i: nat, depth: nat)
    requires d.ArrayDoc? && i < |d.items| && Acceptable(ASSERTION_MODE, d, depth)
    ensures Acceptable(ASSERTION_MODE, d.items[i], depth + 1)
  {
  }

  lemma MemberAcceptable(d: Doc, i: nat, depth: nat)
    requires d.ObjectDoc? && i < |d.members| && Acceptable(ASSERTION_MODE, d, depth)
    ensures Acceptable(ASSERTION_MODE, d.members[i].value, depth + 1)
  {
  }

  lemma KeysAcceptable(d: Doc, depth: nat)
    requires d.ObjectDoc? && Acceptable(ASSERTION_MODE, d, depth)
    ensures DistinctKeys(d.members)
  {
  }

  lemma SameItems(a: seq<Doc>, b: seq<Doc>)
    requires |a| == |b|
    ensures Meaning(ASSERTION_MODE, ArrayDoc(a)) == Meaning(ASSERTION_MODE, ArrayDoc(b))
      <==> forall i :: 0 <= i < |a| ==> Meaning(ASSERTION_MODE, a[i]) == Meaning(ASSERTION_MODE, b[i])
  {
    ItemsMeaningAt(ASSERTION_MODE, a);
    ItemsMeaningAt(ASSERTION_MODE, b);
    var x, y := ItemsMeaning(ASSERTION_MODE, a), ItemsMeaning(ASSERTION_MODE, b);
    if x == y {
      assert forall i :: 0 <= i < |a| ==> x[i] == y[i];
    }
  }

  lemma SameMembers(a: seq<Member>, b: seq<Member>)
    requires |a| == |b| && DistinctKeys(a) && DistinctKeys(b)
    requires forall i :: 0 <= i < |a| ==> a[i].key == b[i].key
    ensures Meaning(ASSERTION_MODE, ObjectDoc(a)) == Meaning(ASSERTION_MODE, ObjectDoc(b))
      <==> forall i :: 0 <= i < |a| ==> Meaning(ASSERTION_MODE, a[i].value) == Meaning(ASSERTION_MODE, b[i].value)
  {
    MembersMeaningAt(ASSERTION_MODE, a, map[]);
    MembersMeaningAt(ASSERTION_MODE, b, map[]);
    var x, y := MembersMeaning(ASSERTION_MODE, a, map[]), MembersMeaning(ASSERTION_MODE, b, map[]);
    assert Meaning(ASSERTION_MODE, ObjectDoc(a)) == Object(x) && Meaning(ASSERTION_MODE, ObjectDoc(b)) == Object(y);
    hide Meaning, MembersMeaning, DistinctKeys;
    SameEntries(a, b, x, y);
    assert forall i :: 0 <= i < |a| ==> x[a[i].key] == Meaning(ASSERTION_MODE, a[i].value);
    assert forall i :: 0 <= i < |a| ==> y[a[i].key] == Meaning(ASSERTION_MODE, b[i].value);
  }

  // Two maps over the keys of these members.
  lemma SameEntries(a: seq<Member>, b: seq<Member>, x: map<string, Value>, y: map<string, Value>)
    requires |a| == |b| && forall i :: 0 <= i < |a| ==> a[i].key == b[i].key
    requires forall i :: 0 <= i < |a| ==> a[i].key in x && a[i].key in y
    requires forall k :: k in x ==> exists i :: 0 <= i < |a| && a[i].key == k
    requires forall k :: k in y ==> exists i :: 0 <= i < |b| && b[i].key == k
    ensures x == y <==> forall i :: 0 <= i < |a| ==> x[a[i].key] == y[a[i].key]
  {
    forall k
      ensures k in x <==> k in y
    {
      assert forall i :: 0 <= i < |a| ==> a[i].key == b[i].key && a[i].key in x && a[i].key in y;
    }
    assert x == y <==> forall k :: k in x ==> x[k] == y[k];
  }

  /** Main result: two decodable documents that differ only in how numbers are written decode to the
      same value exactly when numbers in the same place denote the same rational. */
  lemma DocumentsDecodeByValue(d: Doc, e: Doc)
    requires Respelled(d, e) && Decode(Raw(true, Print(d))).Some? && Decode(Raw(true, Print(e))).Some?
    ensures Decode(Raw(true, Print(d))) == Decode(Raw(true, Print(e))) <==> EqualNumbers(d, e)
  {
    hide Print, Parse;
    assert Print(d) + [] == Print(d) && Print(e) + [] == Print(e);
    ParsePrint(ASSERTION_MODE, d, 0, []);
    ParsePrint(ASSERTION_MODE, e, 0, []);
    RespelledMeans(d, e, 0);
  }

  // ----- Two decoders that differ only in what they do with numbers -----

  ghost predicate NumbersFit(ts: seq<Token>, limit: nat) {
    forall i :: 0 <= i < |ts| && ts[i].NumberToken? ==> |ts[i].n.Text()| <= limit
  }

  /** u is m without its number limit. */
  ghost predicate Unlimited(m: Mode, u: Mode) {
    && m.maxDepth == u.maxDepth && m.maxOpen == u.maxOpen && m.rejectDuplicates == u.rejectDuplicates
    && m.maxNumber >= 0 && u.maxNumber < 0
  }

  lemma FitConcat(a: seq<Token>, b: seq<Token>, limit: nat)
    ensures NumbersFit(a + b, limit) <==> NumbersFit(a, limit) && NumbersFit(b, limit)
  {
    assert forall i :: 0 <= i < |a| ==> (a + b)[i] == a[i];
    assert forall i :: 0 <= i < |b| ==> (a + b)[|a| + i] == b[i];
  }

  lemma {:induction false} LimitOnDoc(m: Mode, u: Mode, d: Doc, depth: nat)
    requires Unlimited(m, u)
    ensures Acceptable(m, d, depth) <==> Acceptable(u, d, depth) && NumbersFit(Print(d), m.maxNumber)
    decreases d, 1
  {
    match d
    case Scalar(t) =>
      assert Print(d)[0] == t;
    case ArrayDoc(items) =>
      LimitOnItems(m, u, items, depth);
      FitConcat(PrintItems(items), [CloseArray], m.maxNumber);
      FitConcat([OpenArray], PrintItems(items) + [CloseArray], m.maxNumber);
    case ObjectDoc(members) =>
      LimitOnMembers(m, u, members, depth);
      FitConcat(PrintMembers(members), [CloseObject], m.maxNumber);
      FitConcat([OpenObject], PrintMembers(members) + [CloseObject], m.maxNumber);
  }

  lemma {:induction false} LimitOnItems(m: Mode, u: Mode, items: seq<Doc>, depth: nat)
    requires Unlimited(m, u)
    ensures AllItems(m, items, depth + 1)
      <==> AllItems(u, items, depth + 1) && NumbersFit(PrintItems(items), m.maxNumber)
    decreases items, 0
  {
    if items != [] {
      LimitOnDoc(m, u, items[0], depth + 1);
      LimitOnItems(m, u, items[1..], depth);
      FitConcat(Print(items[0]), PrintItems(items[1..]), m.maxNumber);
      AllItemsStep(m, items, depth + 1);
      AllItemsStep(u, items, depth + 1);
    }
  }

  lemma {:induction false} LimitOnMembers(m: Mode, u: Mode, members: seq<Member>, depth: nat)
    requires Unlimited(m, u)
    ensures AllMembers(m, members, depth + 1)
      <==> AllMembers(u, members, depth + 1) && NumbersFit(PrintMembers(members), m.maxNumber)
    decreases members, 0
  {
    if members != [] {
      var head, tail := Print(members[0].value), PrintMembers(members[1..]);
      LimitOnDoc(m, u, members[0].value, depth + 1);
      LimitOnMembers(m, u, members[1..], depth);
      FitConcat(head, tail, m.maxNumber);
      FitConcat([StringToken(members[0].key)], head + tail, m.maxNumber);
      AllMembersStep(m, members, depth + 1);
      AllMembersStep(u, members, depth + 1);
    }
  }

  /** Main result: the assertion decoder accepts a stream exactly when the duplicate-key
      checker with the same depth bound does and no number read is over 128 characters. */
  lemma DecodeAgreesWithUnique(ts: seq<Token>, depth: nat)
    ensures var p, q := Parse(ASSERTION_MODE, ts, depth), Parse(UniqueMode(64), ts, depth);
      && (p.Some? <==> q.Some? && NumbersFit(ts[..|ts| - |q.value.1|], 128))
      && (p.Some? ==> p.value.1 == q.value.1)
  {
    var m, u := ASSERTION_MODE, UniqueMode(64);
    var p, q := Parse(m, ts, depth), Parse(u, ts, depth);
    if p.Some? || q.Some? {
      var d;
      var rest;
      if p.Some? {
        d := ParseSound(m, ts, depth);
        rest := p.value.1;
      } else {
        d := ParseSound(u, ts, depth);
        rest := q.value.1;
      }
      ParsePrint(m, d, depth, rest);
      ParsePrint(u, d, depth, rest);
      LimitOnDoc(m, u, d, depth);
      assert ts[..|ts| - |rest|] == Print(d);
    }
  }
}
