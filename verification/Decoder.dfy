/** The streaming decoder and the two recursive readers that drive it: the strict
    assertion decoder and the duplicate-key checker. */
module Decoder {
  import opened Basics
  import opened Number
  import opened Json

  /** What a decoder expects inside the innermost open container. */
  datatype Frame = InArray | BeforeKey | BeforeMemberValue

  predicate ValueExpected(stack: seq<Frame>) {
    stack != [] ==> stack[|stack| - 1] != BeforeKey
  }

  function AfterValue(stack: seq<Frame>): seq<Frame> {
    if stack != [] && stack[|stack| - 1] == BeforeMemberValue then stack[..|stack| - 1] + [BeforeKey] else stack
  }

  /** A token reader that only yields properly nested and matched delimiters. */
  class Decoder {
    var rest: seq<Token>
    var stack: seq<Frame>

    constructor (tokens: seq<Token>)
      ensures rest == tokens && stack == []
    {
      rest, stack := tokens, [];
    }

    /** Whether another element follows in the current container. */
    predicate More()
      reads this
    {
      rest != [] && !rest[0].CloseObject? && !rest[0].CloseArray?
    }

    method NextToken() returns (t: Option<Token>)
      modifies this
      ensures old(rest) == [] ==> t.None?
      ensures t.Some? ==> t.value == old(rest)[0] && rest == old(rest)[1..]
      ensures old(rest) != [] ==>
        var s, c := old(stack), old(rest)[0];
        match c
        case OpenObject =>
          if ValueExpected(s) then t.Some? && stack == AfterValue(s) + [BeforeKey] else t.None?
        case OpenArray =>
          if ValueExpected(s) then t.Some? && stack == AfterValue(s) + [InArray] else t.None?
        case CloseObject =>
          if s != [] && s[|s| - 1] == BeforeKey then t.Some? && stack == s[..|s| - 1] else t.None?
        case CloseArray =>
          if s != [] && s[|s| - 1] == InArray then t.Some? && stack == s[..|s| - 1] else t.None?
        case StringToken(_) =>
          t.Some? && stack == if ValueExpected(s) then AfterValue(s) else s[..|s| - 1] + [BeforeMemberValue]
        case Junk => t.None?
        case _ => if ValueExpected(s) then t.Some? && stack == AfterValue(s) else t.None?
    {
      if rest == [] || rest[0].Junk? {
        return None;
      }
      var c := rest[0];
      var top := if stack == [] then None else Some(stack[|stack| - 1]);
      if c.CloseObject? || c.CloseArray? {
        if top != Some(if c.CloseObject? then BeforeKey else InArray) {
          return None;
        }
        stack := stack[..|stack| - 1];
      } else if top == Some(BeforeKey) {
        if !c.StringToken? {
          return None;
        }
        stack := stack[..|stack| - 1] + [BeforeMemberValue];
      } else {
        stack := AfterValue(stack);
        if c.OpenObject? {
          stack := stack + [BeforeKey];
        } else if c.OpenArray? {
          stack := stack + [InArray];
        }
      }
      rest := rest[1..];
      return Some(c);
    }
  }

  /** Reads one value, rejecting deep nesting, duplicate keys and long numbers. */
  method DecodeValue(d: Decoder, depth: nat) returns (r: Option<Value>)
    requires ValueExpected(d.stack)
    modifies d
    ensures var p := Parse(ASSERTION_MODE, old(d.rest), depth);
      && (r.Some? <==> p.Some?)
      && (r.Some? ==> (r.value, d.rest) == p.value && d.stack == AfterValue(old(d.stack)))
    decreases |d.rest|
  {
    hide Parse, ParseItems, ParseMembers, AfterValue;
    ghost var start, frames := d.rest, AfterValue(d.stack);
    ParseStep(ASSERTION_MODE, start, depth);
    if depth > 64 {
      return None;
    }
    var token := d.NextToken();
    if token.None? {
      return None;
    }
    match token.value
    case OpenObject =>
      var v: map<string, Value> := map[];
      while d.More()
        invariant d.stack == frames + [BeforeKey] && |d.rest| < |start|
        invariant Parse(ASSERTION_MODE, start, depth) == ParseMembers(ASSERTION_MODE, d.rest, depth, v)
        decreases |d.rest|
      {
        MembersStep(ASSERTION_MODE, d.rest, depth, v);
        var key := d.NextToken();
        if key.None? || !key.value.StringToken? {
          return None;
        }
        var s := key.value.s;
        if s in v {
          return None;
        }
        PushedKey(frames);
        var value := DecodeValue(d, depth + 1);
        if value.None? {
          return None;
        }
        v := v[s := value.value];
      }
      MembersStep(ASSERTION_MODE, d.rest, depth, v);
      var end := d.NextToken();
      if end != Some(CloseObject) {
        return None;
      }
      assert d.stack == frames;
      return Some(Object(v));
    case OpenArray =>
      var v: seq<Value> := [];
      while d.More()
        invariant d.stack == frames + [InArray] && |d.rest| < |start|
        invariant Parse(ASSERTION_MODE, start, depth) == ParseItems(ASSERTION_MODE, d.rest, depth, v)
        decreases |d.rest|
      {
        ItemsStep(ASSERTION_MODE, d.rest, depth, v);
        PushedArray(frames);
        var value := DecodeValue(d, depth + 1);
        if value.None? {
          return None;
        }
        v := v + [value.value];
      }
      ItemsStep(ASSERTION_MODE, d.rest, depth, v);
      var end := d.NextToken();
      if end != Some(CloseArray) {
        return None;
      }
      assert d.stack == frames;
      return Some(Array(v));
    case NumberToken(n) =>
      if |n.Text()| > 128 {
        return None;
      }
      var text := NormalizeNumber(n.Text(), n);
      return Some(Num(text));
    case CloseObject => return None;
    case CloseArray => return None;
    case StringToken(s) => return Some(String(s));
    case BoolToken(b) => return Some(Bool(b));
    case NullToken => return Some(Null);
    case Junk => return None;
  }

  lemma ParseStep(m: Mode, ts: seq<Token>, depth: nat)
    ensures var p := Parse(m, ts, depth);
      if !m.DepthOk(depth) || ts == [] then p.None?
      else if ts[0].OpenObject? && m.OpenOk(depth) then p == ParseMembers(m, ts[1..], depth, map[])
      else if ts[0].OpenArray? && m.OpenOk(depth) then p == ParseItems(m, ts[1..], depth, [])
      else if m.ScalarOk(ts[0]) then p == Some((m.ScalarValue(ts[0]), ts[1..]))
      else p.None?
  {
  }

  lemma MembersStep(m: Mode, ts: seq<Token>, depth: nat, acc: map<string, Value>)
    ensures var p := ParseMembers(m, ts, depth, acc);
      if ts == [] then p.None?
      else if ts[0].CloseObject? then p == Some((Object(acc), ts[1..]))
      else if !ts[0].StringToken? || (m.rejectDuplicates && ts[0].s in acc) then p.None?
      else
        var r := Parse(m, ts[1..], depth + 1);
        if r.None? then p.None?
        else |r.value.1| < |ts| && p == ParseMembers(m, r.value.1, depth, acc[ts[0].s := r.value.0])
  {
  }

  lemma ItemsStep(m: Mode, ts: seq<Token>, depth: nat, acc: seq<Value>)
    ensures var p := ParseItems(m, ts, depth, acc);
      if ts == [] then p.None?
      else if ts[0].CloseArray? then p == Some((Array(acc), ts[1..]))
      else if ts[0].CloseObject? then p.None?
      else
        var r := Parse(m, ts, depth + 1);
        if r.None? then p.None?
        else |r.value.1| < |ts| && p == ParseItems(m, r.value.1, depth, acc + [r.value.0])
  {
  }

  lemma PushedKey(frames: seq<Frame>)
    ensures AfterValue(frames + [BeforeMemberValue]) == frames + [BeforeKey]
  {
  }

  lemma PushedArray(frames: seq<Frame>)
    ensures AfterValue(frames + [InArray]) == frames + [InArray]
  {
  }

  method DecodeAssertionJson(raw: Raw) returns (r: Option<Value>)
    ensures r == Decode(raw)
  {
    if raw.Absent? || !raw.utf8 {
      return None;
    }
    var d := new Decoder(raw.tokens);
    r := DecodeValue(d, 0);
    if r.Some? && d.rest != [] {
      return None;
    }
  }

  /** Reads one value for its shape alone, rejecting duplicate keys and, when
      maxDepth is not negative, deep nesting. */
  method Unique(d: Decoder, depth: nat, maxDepth: int) returns (ok: bool)
    requires ValueExpected(d.stack)
    modifies d
    ensures var p := Parse(UniqueMode(maxDepth), old(d.rest), depth);
      && (ok <==> p.Some?)
      && (ok ==> d.rest == p.value.1 && d.stack == AfterValue(old(d.stack)))
    decreases |d.rest|
  {
    hide Parse, ParseItems, ParseMembers, AfterValue;
    ghost var m, start, frames := UniqueMode(maxDepth), d.rest, AfterValue(d.stack);
    ParseStep(m, start, depth);
    if maxDepth >= 0 && depth > maxDepth {
      return false;
    }
    var token := d.NextToken();
    if token.None? {
      return false;
    }
    if token.value.OpenObject? {
      var seen: set<string> := {};
      ghost var acc: map<string, Value> := map[];
      while d.More()
        invariant d.stack == frames + [BeforeKey] && |d.rest| < |start| && seen == acc.Keys
        invariant Parse(m, start, depth) == ParseMembers(m, d.rest, depth, acc)
        decreases |d.rest|
      {
        MembersStep(m, d.rest, depth, acc);
        var key := d.NextToken();
        if key.None? || !key.value.StringToken? || key.value.s in seen {
          return false;
        }
        seen := seen + {key.value.s};
        PushedKey(frames);
        ghost var v := Parse(m, d.rest, depth + 1);
        var inner := Unique(d, depth + 1, maxDepth);
        if !inner {
          return false;
        }
        acc := acc[key.value.s := v.value.0];
      }
      MembersStep(m, d.rest, depth, acc);
    } else if token.value.OpenArray? {
      ghost var acc: seq<Value> := [];
      while d.More()
        invariant d.stack == frames + [InArray] && |d.rest| < |start|
        invariant Parse(m, start, depth) == ParseItems(m, d.rest, depth, acc)
        decreases |d.rest|
      {
        ItemsStep(m, d.rest, depth, acc);
        PushedArray(frames);
        ghost var v := Parse(m, d.rest, depth + 1);
        var inner := Unique(d, depth + 1, maxDepth);
        if !inner {
          return false;
        }
        acc := acc + [v.value.0];
      }
      ItemsStep(m, d.rest, depth, acc);
    } else {
      return IsScalar(token.value);
    }
    var end := d.NextToken();
    ok := end.Some?;
    assert ok ==> d.stack == frames;
  }
}
