/** The request guard: a monitor with one counter per approved dispatch, a total and a
    stage that only moves forward. It refines a plain budget over normalised requests. */
module Guard {
  import opened Basics
  import opened Json
  import opened Number
  import opened Model
  import opened Server
  import Decoder

  // ----- Plans and normalised requests -----

  /** A phase the guard does not know is None. */
  datatype Dispatch = Dispatch(phase: Option<Phase>, identityId: string, request: Request, max: int)

  datatype Plan = Plan(
    schema: string, profile: string, toolHash: string, caseHash: string, timeout: int, maxBytes: int,
    dispatches: seq<Dispatch>, max: int)

  /** What two requests must share to draw on the same budget. */
  datatype Key = Key(
    phase: Option<Phase>, identityId: string, verb: string, url: string, headers: map<string, string>,
    query: map<string, string>, body: Option<Value>)

  function Stage(phase: Option<Phase>): int {
    match phase
    case None => -1
    case Some(SetupPhase) => 0
    case Some(PreflightPhase) => 1
    case Some(_) => 2
  }

  function LowerText(s: string, fold: char -> char): string {
    seq(|s|, i requires 0 <= i < |s| => fold(s[i]))
  }

  /** Two header names that differ only in case are ambiguous. */
  function Lower(headers: map<string, string>, fold: char -> char): Option<map<string, string>> {
    if forall a, b :: a in headers && b in headers && a != b ==> LowerText(a, fold) != LowerText(b, fold)
    then Some(map k | k in headers :: LowerText(k, fold) := headers[k])
    else None
  }

  /** Header names are compared in a lower case that is its own lower case. */
  ghost predicate Idempotent(fold: char -> char) {
    forall c :: fold(fold(c)) == fold(c)
  }

  /** The decoded body, if the text is one document without duplicate keys; null says no more than no body. */
  function BodyOf(raw: Raw): Option<Option<Value>> {
    if raw.Absent? then Some(None)
    else
      var (v, rest) :- Parse(STANDARD_MODE, raw.tokens, 0);
      if rest == [] && Parse(UniqueMode(-1), raw.tokens, 0).Some? then Some(if v.Null? then None else Some(v)) else None
  }

  function KeyOf(fold: char -> char, phase: Option<Phase>, actor: string, r: Request): Option<Key> {
    var headers :- Lower(r.headers, fold);
    var body :- BodyOf(r.body);
    Some(Key(phase, actor, if r.verb == "" then "GET" else r.verb, r.url, headers, r.query, body))
  }

  // ----- Construction -----

  predicate HashValid(h: string) {
    |h| == 64 && forall i :: 0 <= i < |h| ==> '0' <= h[i] <= '9' || 'a' <= h[i] <= 'f'
  }

  predicate KnownVerb(v: string) {
    v == "GET" || v == "HEAD" || v == "OPTIONS" || v == "POST" || v == "PUT" || v == "PATCH" || v == "DELETE"
  }

  predicate DispatchOk(d: Dispatch, urlOk: string -> bool, fold: char -> char) {
    && urlOk(d.request.url) && Stage(d.phase) >= 0 && d.identityId != "" && 1 <= d.max <= 100000
    && KnownVerb(d.request.verb) && Lower(d.request.headers, fold).Some? && BodyOf(d.request.body).Some?
  }

  function SumMax(ds: seq<Dispatch>): int {
    if ds == [] then 0 else SumMax(ds[..|ds| - 1]) + ds[|ds| - 1].max
  }

  predicate HeaderOk(plan: Plan) {
    && plan.schema == "vardr.execution-plan/1" && plan.profile == "gate-fixed-http/1"
    && HashValid(plan.toolHash) && HashValid(plan.caseHash)
    && 1 <= plan.max <= 100000 && 1 <= |plan.dispatches| <= 4096
    && 1 <= plan.timeout <= 600 && 1 <= plan.maxBytes <= 5 * 1024 * 1024
  }

  ghost predicate PlanOk(plan: Plan, urlOk: string -> bool, fold: char -> char) {
    && HeaderOk(plan)
    && (forall i :: 0 <= i < |plan.dispatches| ==> DispatchOk(plan.dispatches[i], urlOk, fold))
    && SumMax(plan.dispatches) == plan.max
  }

  /** The key a dispatch approves. */
  function DispatchKey(d: Dispatch, fold: char -> char): Option<Key> {
    KeyOf(fold, d.phase, d.identityId, d.request)
  }

  // ----- Sums over the dispatches of one key -----

  ghost function SumWhere(ds: seq<Dispatch>, ns: seq<int>, key: Key, fold: char -> char): int
    requires |ns| == |ds|
  {
    if ds == [] then 0
    else
      var n := |ds| - 1;
      SumWhere(ds[..n], ns[..n], key, fold) + if DispatchKey(ds[n], fold) == Some(key) then ns[n] else 0
  }

  ghost function Sum(ns: seq<int>): int {
    if ns == [] then 0 else Sum(ns[..|ns| - 1]) + ns[|ns| - 1]
  }

  function Maxima(ds: seq<Dispatch>): seq<int> {
    seq(|ds|, i requires 0 <= i < |ds| => ds[i].max)
  }

  /** All dispatches of the plan that approve this request, added up. */
  ghost function Budget(ds: seq<Dispatch>, key: Key, fold: char -> char): int {
    SumWhere(ds, Maxima(ds), key, fold)
  }

  lemma {:induction false} SumBump(ns: seq<int>, i: nat)
    requires i < |ns|
    ensures Sum(ns[i := ns[i] + 1]) == Sum(ns) + 1
  {
    var n, ms := |ns| - 1, ns[i := ns[i] + 1];
    if i == n {
      assert ms[..n] == ns[..n];
    } else {
      assert ms[..n] == ns[..n][i := ns[i] + 1];
      SumBump(ns[..n], i);
    }
  }

  lemma {:induction false} SumWhereBump(ds: seq<Dispatch>, ns: seq<int>, i: nat, key: Key, fold: char -> char)
    requires |ns| == |ds| && i < |ns|
    ensures SumWhere(ds, ns[i := ns[i] + 1], key, fold)
         == SumWhere(ds, ns, key, fold) + if DispatchKey(ds[i], fold) == Some(key) then 1 else 0
  {
    hide DispatchKey;
    var n, ms := |ns| - 1, ns[i := ns[i] + 1];
    if i == n {
      assert ms[..n] == ns[..n];
    } else {
      assert ms[..n] == ns[..n][i := ns[i] + 1];
      SumWhereBump(ds[..n], ns[..n], i, key, fold);
    }
  }

  ghost predicate Within(ns: seq<int>, ms: seq<int>) {
    |ns| == |ms| && forall i :: 0 <= i < |ns| ==> 0 <= ns[i] <= ms[i]
  }

  /** Some matching dispatch has room exactly when the matching counters are below the budget. */
  lemma {:induction false} RoomIsBudget(ds: seq<Dispatch>, ns: seq<int>, ms: seq<int>, key: Key, fold: char -> char)
    requires |ns| == |ds| && Within(ns, ms)
    ensures 0 <= SumWhere(ds, ns, key, fold) <= SumWhere(ds, ms, key, fold)
    ensures SumWhere(ds, ns, key, fold) < SumWhere(ds, ms, key, fold)
      <==> exists i :: 0 <= i < |ds| && DispatchKey(ds[i], fold) == Some(key) && ns[i] < ms[i]
  {
    hide DispatchKey;
    if ds != [] {
      var n := |ds| - 1;
      RoomIsBudget(ds[..n], ns[..n], ms[..n], key, fold);
      if i :| 0 <= i < |ds| && DispatchKey(ds[i], fold) == Some(key) && ns[i] < ms[i] {
        assert i < n ==> ds[..n][i] == ds[i] && ns[..n][i] == ns[i] && ms[..n][i] == ms[i];
      }
      if i :| 0 <= i < n && DispatchKey(ds[..n][i], fold) == Some(key) && ns[..n][i] < ms[..n][i] {
        assert ds[i] == ds[..n][i] && ns[i] == ns[..n][i] && ms[i] == ms[..n][i];
      }
    }
  }

  lemma {:induction false} SumWithin(ns: seq<int>, ms: seq<int>)
    requires Within(ns, ms)
    ensures 0 <= Sum(ns) <= Sum(ms)
    ensures (exists i :: 0 <= i < |ns| && ns[i] < ms[i]) ==> Sum(ns) < Sum(ms)
  {
    if ns != [] {
      var n := |ns| - 1;
      SumWithin(ns[..n], ms[..n]);
      if i :| 0 <= i < |ns| && ns[i] < ms[i] {
        assert i < n ==> ns[..n][i] == ns[i] && ms[..n][i] == ms[i];
      }
    }
  }

  lemma {:induction false} SumMaxIsSum(ds: seq<Dispatch>)
    ensures SumMax(ds) == Sum(Maxima(ds))
  {
    if ds != [] {
      var n := |ds| - 1;
      SumMaxIsSum(ds[..n]);
      assert Maxima(ds)[..n] == Maxima(ds[..n]);
    }
  }

  lemma {:induction false} ZeroSums(ds: seq<Dispatch>, ns: seq<int>, key: Key, fold: char -> char)
    requires |ns| == |ds| && forall i :: 0 <= i < |ns| ==> ns[i] == 0
    ensures SumWhere(ds, ns, key, fold) == 0 && Sum(ns) == 0
  {
    if ds != [] {
      ZeroSums(ds[..|ds| - 1], ns[..|ds| - 1], key, fold);
    }
  }

  // ----- Lowering stored headers again changes nothing -----

  lemma LowerTextTwice(s: string, fold: char -> char)
    requires Idempotent(fold)
    ensures LowerText(LowerText(s, fold), fold) == LowerText(s, fold)
  {
  }

  lemma LowerTwice(headers: map<string, string>, fold: char -> char)
    requires Idempotent(fold) && Lower(headers, fold).Some?
    ensures Lower(Lower(headers, fold).value, fold) == Lower(headers, fold)
  {
    var low := Lower(headers, fold).value;
    forall k | k in low
      ensures LowerText(k, fold) == k
    {
      var h :| h in headers && LowerText(h, fold) == k;
      LowerTextTwice(h, fold);
    }
    assert Lower(low, fold).Some?;
    assert Lower(low, fold).value == low;
  }

  function Stored(d: Dispatch, fold: char -> char): Dispatch {
    var headers := Lower(d.request.headers, fold);
    d.(request := d.request.(headers := if headers.Some? then headers.value else map[]))
  }

  lemma StoredKey(d: Dispatch, fold: char -> char)
    requires Idempotent(fold) && Lower(d.request.headers, fold).Some?
    ensures DispatchKey(Stored(d, fold), fold) == DispatchKey(d, fold)
  {
    LowerTwice(d.request.headers, fold);
  }

  // ----- The guard -----

  /** What the guard decides: known phase, not behind, live, well formed, within budget. */
  ghost predicate Permits(ds: seq<Dispatch>, fold: char -> char, accepted: seq<Key>, stage: int,
      phase: Option<Phase>, live: bool, actor: string, r: Request)
  {
    && live && 0 <= Stage(phase) && stage <= Stage(phase)
    && var key := KeyOf(fold, phase, actor, r);
       key.Some? && multiset(accepted)[key.value] < Budget(ds, key.value, fold)
  }

  /** The counters agree with what was accepted, key by key and in total. */
  ghost predicate Balanced(ds: seq<Dispatch>, ns: seq<int>, accepted: seq<Key>, fold: char -> char) {
    && |ns| == |ds| && Within(ns, Maxima(ds))
    && Sum(ns) == |accepted|
    && forall key: Key :: SumWhere(ds, ns, key, fold) == multiset(accepted)[key]
  }

  lemma Reserve(ds: seq<Dispatch>, ns: seq<int>, accepted: seq<Key>, i: nat, key: Key, fold: char -> char)
    requires Balanced(ds, ns, accepted, fold) && i < |ds|
    requires DispatchKey(ds[i], fold) == Some(key) && ns[i] < ds[i].max
    ensures Balanced(ds, ns[i := ns[i] + 1], accepted + [key], fold)
    ensures multiset(accepted)[key] < Budget(ds, key, fold)
  {
    hide DispatchKey, SumWhere, Sum;
    SumBump(ns, i);
    RoomIsBudget(ds, ns, Maxima(ds), key, fold);
    forall k: Key
      ensures SumWhere(ds, ns[i := ns[i] + 1], k, fold) == multiset(accepted + [key])[k]
    {
      SumWhereBump(ds, ns, i, k, fold);
      assert multiset(accepted + [key]) == multiset(accepted) + multiset{key};
    }
  }

  lemma Exhausted(ds: seq<Dispatch>, ns: seq<int>, accepted: seq<Key>, key: Key, fold: char -> char)
    requires Balanced(ds, ns, accepted, fold)
    requires forall k :: 0 <= k < |ds| && DispatchKey(ds[k], fold) == Some(key) ==> ns[k] >= ds[k].max
    ensures multiset(accepted)[key] >= Budget(ds, key, fold)
  {
    hide DispatchKey, SumWhere, Sum;
    RoomIsBudget(ds, ns, Maxima(ds), key, fold);
  }

  // A spent total leaves no room for any key.
  lemma SpentOut(ds: seq<Dispatch>, ns: seq<int>, accepted: seq<Key>, fold: char -> char)
    requires Balanced(ds, ns, accepted, fold) && |accepted| >= Sum(Maxima(ds))
    ensures forall key: Key :: multiset(accepted)[key] >= Budget(ds, key, fold)
  {
    SumWithin(ns, Maxima(ds));
    forall key: Key
      ensures multiset(accepted)[key] >= Budget(ds, key, fold)
    {
      RoomIsBudget(ds, ns, Maxima(ds), key, fold);
    }
  }

  /** The fields of a stored dispatch compared one by one with an incoming request's. */
  predicate Approves(d: Dispatch, key: Key, fold: char -> char) {
    && d.phase == key.phase && d.identityId == key.identityId && d.request.verb == key.verb && d.request.url == key.url
    && Lower(d.request.headers, fold) == Some(key.headers) && d.request.query == key.query
    && BodyOf(d.request.body) == Some(key.body)
  }

  lemma ApprovesByKey(d: Dispatch, key: Key, fold: char -> char)
    requires d.request.verb != ""
    ensures Approves(d, key, fold) <==> DispatchKey(d, fold) == Some(key)
  {
    hide Lower, BodyOf;
  }

  lemma KeyParts(fold: char -> char, phase: Option<Phase>, actor: string, r: Request)
    ensures KeyOf(fold, phase, actor, r).Some? <==> Lower(r.headers, fold).Some? && BodyOf(r.body).Some?
    ensures KeyOf(fold, phase, actor, r).Some? ==>
      KeyOf(fold, phase, actor, r).value
        == Key(phase, actor, if r.verb == "" then "GET" else r.verb, r.url,
               Lower(r.headers, fold).value, r.query, BodyOf(r.body).value)
  {
    hide Lower, BodyOf;
  }

  class Guard {
    const fold: char -> char
    const dispatches: seq<Dispatch>
    const max: int
    const counts: array<int>
    var total: int
    var stage: int
    ghost var accepted: seq<Key>

    ghost predicate Valid()
      reads this, counts
    {
      && counts.Length == |dispatches|
      && Balanced(dispatches, counts[..], accepted, fold)
      && (forall i :: 0 <= i < |dispatches| ==> dispatches[i].request.verb != "")
      && max == Sum(Maxima(dispatches))
      && total == Sum(counts[..]) == |accepted| <= max
      && -1 <= stage <= 2
    }

    constructor (plan: Plan, urlOk: string -> bool, fold: char -> char)
      requires Idempotent(fold) && PlanOk(plan, urlOk, fold)
      ensures Valid() && fresh(counts) && accepted == [] && stage == -1 && this.fold == fold && max == plan.max
      ensures forall key: Key :: Budget(dispatches, key, fold) == Budget(plan.dispatches, key, fold)
    {
      hide DispatchKey, Stored, DispatchOk, Lower, SumWhere, Sum;
      var cloned := CloneDispatches(plan.dispatches, fold);
      this.fold, max := fold, plan.max;
      dispatches := cloned;
      total, stage, accepted := 0, -1, [];
      counts := new int[|cloned|](i => 0);
      new;
      SumMaxIsSum(plan.dispatches);
      forall i | 0 <= i < |dispatches|
        ensures dispatches[i].request.verb != "" && 0 <= dispatches[i].max == plan.dispatches[i].max
        ensures DispatchKey(dispatches[i], fold) == DispatchKey(plan.dispatches[i], fold)
      {
        StoredFacts(plan.dispatches[i], urlOk, fold);
      }
      assert Maxima(dispatches) == Maxima(plan.dispatches);
      StartsBalanced(dispatches, counts[..], fold);
      forall key: Key
        ensures Budget(dispatches, key, fold) == Budget(plan.dispatches, key, fold)
      {
        SameBudget(dispatches, plan.dispatches, Maxima(dispatches), key, fold);
      }
    }

    /** Reserves one dispatch. */
    method Allow(phase: Option<Phase>, live: bool, actor: string, r: Request) returns (ok: bool)
      requires Valid()
      modifies this, counts
      ensures Valid()
      ensures ok <==> Permits(dispatches, fold, old(accepted), old(stage), phase, live, actor, r)
      ensures ok ==> accepted == old(accepted) + [KeyOf(fold, phase, actor, r).value] && stage == Stage(phase)
      ensures !ok ==>
        accepted == old(accepted) && stage == old(stage) && total == old(total) && counts[..] == old(counts[..])
    {
      hide Lower, BodyOf, Stage, SumWhere, Sum, KeyOf, Approves, DispatchKey, Budget, Balanced;
      var current := Stage(phase);
      if current < stage || current < 0 || total >= max || !live {
        if total >= max {
          SpentOut(dispatches, counts[..], accepted, fold);
        }
        return false;
      }
      KeyParts(fold, phase, actor, r);
      var headers := Lower(r.headers, fold);
      if headers.None? {
        return false;
      }
      var actual := RequestBody(r.body);
      if actual.None? {
        return false;
      }
      var verb := if r.verb == "" then "GET" else r.verb;
      var wanted := Key(phase, actor, verb, r.url, headers.value, r.query, actual.value);
      BalancedLength(dispatches, counts[..], accepted, fold);
      for i := 0 to |dispatches|
        invariant counts[..] == old(counts[..]) && accepted == old(accepted) && stage == old(stage)
          && total == old(total)
        invariant forall k :: 0 <= k < i && DispatchKey(dispatches[k], fold) == Some(wanted) ==>
          counts[..][k] >= dispatches[k].max
      {
        ApprovesByKey(dispatches[i], wanted, fold);
        if Approves(dispatches[i], wanted, fold) && counts[i] < dispatches[i].max {
          ghost var before := counts[..];
          Reserve(dispatches, before, accepted, i, wanted, fold);
          SumBump(before, i);
          counts[i] := counts[i] + 1;
          assert counts[..] == before[i := before[i] + 1];
          total := total + 1;
          stage := current;
          accepted := accepted + [wanted];
          StageRange(phase);
          return true;
        }
      }
      Exhausted(dispatches, counts[..], accepted, wanted, fold);
      return false;
    }
  }

  lemma BalancedLength(ds: seq<Dispatch>, ns: seq<int>, accepted: seq<Key>, fold: char -> char)
    requires Balanced(ds, ns, accepted, fold)
    ensures |ns| == |ds|
  {
  }

  lemma StartsBalanced(ds: seq<Dispatch>, ns: seq<int>, fold: char -> char)
    requires |ns| == |ds| && (forall i :: 0 <= i < |ns| ==> ns[i] == 0 <= ds[i].max)
    ensures Balanced(ds, ns, [], fold) && Sum(ns) == 0 <= Sum(Maxima(ds))
  {
    hide DispatchKey;
    SumWithin(ns, Maxima(ds));
    ZeroTotal(ns);
    forall key: Key
      ensures SumWhere(ds, ns, key, fold) == multiset([])[key]
    {
      ZeroSums(ds, ns, key, fold);
    }
  }

  lemma StageRange(phase: Option<Phase>)
    ensures -1 <= Stage(phase) <= 2
  {
  }

  lemma ZeroTotal(ns: seq<int>)
    requires forall i :: 0 <= i < |ns| ==> ns[i] == 0
    ensures Sum(ns) == 0
    decreases |ns|
  {
    if ns != [] {
      ZeroTotal(ns[..|ns| - 1]);
    }
  }

  lemma StoredFacts(d: Dispatch, urlOk: string -> bool, fold: char -> char)
    requires Idempotent(fold) && DispatchOk(d, urlOk, fold)
    ensures var s := Stored(d, fold);
      s.request.verb != "" && s.max == d.max >= 0 && DispatchKey(s, fold) == DispatchKey(d, fold)
        && DispatchKey(d, fold).Some?
  {
    hide Lower, BodyOf;
    StoredKey(d, fold);
  }

  lemma {:induction false} SameBudget(a: seq<Dispatch>, b: seq<Dispatch>, ns: seq<int>, key: Key, fold: char -> char)
    requires |a| == |b| == |ns| && forall i :: 0 <= i < |a| ==> DispatchKey(a[i], fold) == DispatchKey(b[i], fold)
    ensures SumWhere(a, ns, key, fold) == SumWhere(b, ns, key, fold)
  {
    hide DispatchKey;
    if a != [] {
      var n := |a| - 1;
      SameBudget(a[..n], b[..n], ns[..n], key, fold);
    }
  }

  // Callers cannot change an approved plan through a map they still hold.
  method CloneDispatches(ds: seq<Dispatch>, fold: char -> char) returns (cloned: seq<Dispatch>)
    ensures |cloned| == |ds| && forall i :: 0 <= i < |ds| ==> cloned[i] == Stored(ds[i], fold)
  {
    cloned := [];
    for i := 0 to |ds|
      invariant |cloned| == i && forall k :: 0 <= k < i ==> cloned[k] == Stored(ds[k], fold)
    {
      cloned := cloned + [Stored(ds[i], fold)];
    }
  }

  method NewGuard(plan: Plan, urlOk: string -> bool, fold: char -> char) returns (g: Guard?)
    requires Idempotent(fold)
    ensures g != null <==> PlanOk(plan, urlOk, fold)
    ensures g != null ==>
      && fresh(g) && fresh(g.counts) && g.Valid() && g.accepted == [] && g.stage == -1 && g.max == plan.max
        && g.fold == fold
      && forall key: Key :: Budget(g.dispatches, key, fold) == Budget(plan.dispatches, key, fold)
  {
    hide DispatchOk, Budget;
    if !HeaderOk(plan) {
      return null;
    }
    var total := 0;
    for i := 0 to |plan.dispatches|
      invariant total == SumMax(plan.dispatches[..i])
      invariant forall k :: 0 <= k < i ==> DispatchOk(plan.dispatches[k], urlOk, fold)
    {
      if !DispatchOk(plan.dispatches[i], urlOk, fold) {
        return null;
      }
      assert plan.dispatches[..i + 1][..i] == plan.dispatches[..i];
      total := total + plan.dispatches[i].max;
    }
    assert plan.dispatches[..|plan.dispatches|] == plan.dispatches;
    if total != plan.max {
      return null;
    }
    g := new Guard(plan, urlOk, fold);
  }

  // ----- Whole call sequences -----

  datatype Ask = Ask(phase: Option<Phase>, live: bool, actor: string, request: Request) {
    function KeyIn(fold: char -> char): Option<Key> {
      KeyOf(fold, phase, actor, request)
    }
  }

  /** What a guard has decided so far, the requests it let through and how far it has moved. */
  datatype Ledger = Ledger(decisions: seq<bool>, accepted: seq<Key>, stage: int)

  /** The plain budget monitor: no counters per dispatch and no scanning. */
  ghost function Decide(ds: seq<Dispatch>, fold: char -> char, asks: seq<Ask>): Ledger {
    if asks == [] then Ledger([], [], -1)
    else
      var n := |asks| - 1;
      var l, a := Decide(ds, fold, asks[..n]), asks[n];
      if Permits(ds, fold, l.accepted, l.stage, a.phase, a.live, a.actor, a.request)
      then Ledger(l.decisions + [true], l.accepted + [a.KeyIn(fold).value], Stage(a.phase))
      else l.(decisions := l.decisions + [false])
  }

  /** A fresh guard decides every sequence of requests as the budget monitor does. */
  method AllowEach(g: Guard, asks: seq<Ask>) returns (decisions: seq<bool>)
    requires g.Valid() && g.accepted == [] && g.stage == -1
    modifies g, g.counts
    ensures g.Valid() && Ledger(decisions, g.accepted, g.stage) == Decide(g.dispatches, g.fold, asks)
  {
    hide Permits, Stage, KeyOf;
    decisions := [];
    for i := 0 to |asks|
      invariant g.Valid() && Ledger(decisions, g.accepted, g.stage) == Decide(g.dispatches, g.fold, asks[..i])
    {
      assert asks[..i + 1][..i] == asks[..i];
      var ok := g.Allow(asks[i].phase, asks[i].live, asks[i].actor, asks[i].request);
      decisions := decisions + [ok];
    }
    assert asks[..|asks|] == asks;
  }

  /** Live, understood, in a known phase and never stepping back. */
  ghost predicate InOrder(fold: char -> char, asks: seq<Ask>) {
    && (forall i :: 0 <= i < |asks| ==> asks[i].live && 0 <= Stage(asks[i].phase) && asks[i].KeyIn(fold).Some?)
    && (forall i, j :: 0 <= i < j < |asks| ==> Stage(asks[i].phase) <= Stage(asks[j].phase))
  }

  ghost function Uses(fold: char -> char, asks: seq<Ask>, key: Key): nat {
    if asks == [] then 0
    else Uses(fold, asks[..|asks| - 1], key) + if asks[|asks| - 1].KeyIn(fold) == Some(key) then 1 else 0
  }

  ghost predicate NonNegative(ds: seq<Dispatch>) {
    forall i :: 0 <= i < |ds| ==> 0 <= ds[i].max
  }

  ghost predicate AllTrue(bs: seq<bool>) {
    forall i :: 0 <= i < |bs| ==> bs[i]
  }

  /** No sequence of requests gets more through than the plan lists. */
  lemma {:induction false} NeverOverspends(ds: seq<Dispatch>, fold: char -> char, asks: seq<Ask>, key: Key)
    requires NonNegative(ds)
    ensures multiset(Decide(ds, fold, asks).accepted)[key] <= Budget(ds, key, fold)
    ensures |Decide(ds, fold, asks).decisions| == |asks|
  {
    hide KeyOf, DispatchKey, Stage;
    if asks == [] {
      RoomIsBudget(ds, Maxima(ds), Maxima(ds), key, fold);
    } else {
      NeverOverspends(ds, fold, asks[..|asks| - 1], key);
      var l, a := Decide(ds, fold, asks[..|asks| - 1]), asks[|asks| - 1];
      if Permits(ds, fold, l.accepted, l.stage, a.phase, a.live, a.actor, a.request) {
        var k := a.KeyIn(fold).value;
        assert multiset(l.accepted + [k]) == multiset(l.accepted) + multiset{k};
      }
    }
  }

  ghost predicate WithinBudget(ds: seq<Dispatch>, fold: char -> char, asks: seq<Ask>) {
    forall key: Key :: Uses(fold, asks, key) <= Budget(ds, key, fold)
  }

  /** If nothing was refused, the ledger holds exactly the requests made. */
  ghost predicate Accounted(l: Ledger, fold: char -> char, asks: seq<Ask>) {
    && |l.decisions| == |asks|
    && (AllTrue(l.decisions) ==>
          && (forall key: Key :: multiset(l.accepted)[key] == Uses(fold, asks, key))
          && l.stage == if asks == [] then -1 else Stage(asks[|asks| - 1].phase))
  }

  /** The exact condition for a whole sequence to pass: in order, and within budget per request. */
  lemma {:induction false} AllPassIff(ds: seq<Dispatch>, fold: char -> char, asks: seq<Ask>)
    requires NonNegative(ds)
    ensures Accounted(Decide(ds, fold, asks), fold, asks)
    ensures AllTrue(Decide(ds, fold, asks).decisions) <==> InOrder(fold, asks) && WithinBudget(ds, fold, asks)
  {
    hide KeyOf, DispatchKey, Stage, Budget;
    if asks == [] {
      forall key: Key
        ensures 0 <= Budget(ds, key, fold)
      {
        NeverOverspends(ds, fold, [], key);
      }
    } else {
      AllPassIff(ds, fold, asks[..|asks| - 1]);
      PassStep(ds, fold, asks);
    }
  }

  lemma UsesStep(ds: seq<Dispatch>, fold: char -> char, asks: seq<Ask>)
    requires asks != [] && asks[|asks| - 1].KeyIn(fold).Some?
    ensures var k := asks[|asks| - 1].KeyIn(fold).value; var pre := asks[..|asks| - 1];
      WithinBudget(ds, fold, asks) <==> WithinBudget(ds, fold, pre) && Uses(fold, pre, k) < Budget(ds, k, fold)
  {
    hide KeyOf, Budget;
    var k, pre := asks[|asks| - 1].KeyIn(fold).value, asks[..|asks| - 1];
    assert forall key: Key :: Uses(fold, asks, key) == Uses(fold, pre, key) + if key == k then 1 else 0;
    if WithinBudget(ds, fold, asks) {
      assert Uses(fold, asks, k) <= Budget(ds, k, fold);
      forall key: Key
        ensures Uses(fold, pre, key) <= Budget(ds, key, fold)
      {
        assert Uses(fold, asks, key) <= Budget(ds, key, fold);
      }
    }
  }

  lemma PassStep(ds: seq<Dispatch>, fold: char -> char, asks: seq<Ask>)
    requires asks != []
    requires var pre := asks[..|asks| - 1]; var l := Decide(ds, fold, pre);
      && Accounted(l, fold, pre)
      && (AllTrue(l.decisions) <==> InOrder(fold, pre) && WithinBudget(ds, fold, pre))
    ensures var l := Decide(ds, fold, asks);
      && Accounted(l, fold, asks)
      && (AllTrue(l.decisions) <==> InOrder(fold, asks) && WithinBudget(ds, fold, asks))
  {
    hide KeyOf, DispatchKey, Stage, Budget, WithinBudget, InOrder;
    var n := |asks| - 1;
    var l, a := Decide(ds, fold, asks[..n]), asks[n];
    StepInOrder(fold, asks);
    StepTrue(l.decisions, Permits(ds, fold, l.accepted, l.stage, a.phase, a.live, a.actor, a.request));
    if a.KeyIn(fold).Some? {
      UsesStep(ds, fold, asks);
      var k := a.KeyIn(fold).value;
      assert multiset(l.accepted + [k]) == multiset(l.accepted) + multiset{k};
    }
    StageRange(a.phase);
    assert n > 0 ==> asks[..n][n - 1] == asks[n - 1];
  }

  lemma StepTrue(bs: seq<bool>, b: bool)
    ensures AllTrue(bs + [b]) <==> AllTrue(bs) && b
  {
    var all := bs + [b];
    assert all[|bs|] == b;
    assert forall i :: 0 <= i < |bs| ==> all[i] == bs[i];
  }

  lemma StepInOrder(fold: char -> char, asks: seq<Ask>)
    requires asks != []
    ensures var n := |asks| - 1; var a := asks[n];
      InOrder(fold, asks) <==>
        && InOrder(fold, asks[..n])
        && a.live && 0 <= Stage(a.phase) && a.KeyIn(fold).Some?
        && (n > 0 ==> Stage(asks[n - 1].phase) <= Stage(a.phase))
  {
    hide KeyOf, Stage;
    var n := |asks| - 1;
    var pre := asks[..n];
    assert forall i :: 0 <= i < n ==> pre[i] == asks[i];
    if InOrder(fold, pre) && n > 0 && Stage(asks[n - 1].phase) <= Stage(asks[n].phase) {
      forall i | 0 <= i < n
        ensures Stage(asks[i].phase) <= Stage(asks[n].phase)
      {
        assert i < n - 1 ==> Stage(pre[i].phase) <= Stage(pre[n - 1].phase);
      }
    }
  }

  // ----- Bodies -----

  method RequestBody(raw: Raw) returns (r: Option<Option<Value>>)
    ensures r == BodyOf(raw)
  {
    if raw.Absent? {
      return Some(None);
    }
    var decoded := Parse(STANDARD_MODE, raw.tokens, 0);
    if decoded.None? || decoded.value.1 != [] {
      return None;
    }
    var d := new Decoder.Decoder(raw.tokens);
    var ok := Decoder.Unique(d, 0, -1);
    if !ok {
      return None;
    }
    var value := decoded.value.0;
    return Some(if value.Null? then None else Some(value));
  }

  const BODY_MODE := Mode(-1, 10000, -1, false, true)

  lemma {:induction false} BothModes(d: Doc, depth: nat)
    ensures Acceptable(BODY_MODE, d, depth) <==>
      Acceptable(STANDARD_MODE, d, depth) && Acceptable(UniqueMode(-1), d, depth)
    decreases d
  {
    match d
    case Scalar(t) =>
    case ArrayDoc(items) =>
      forall i | 0 <= i < |items|
        ensures Acceptable(BODY_MODE, items[i], depth + 1)
          <==> Acceptable(STANDARD_MODE, items[i], depth + 1) && Acceptable(UniqueMode(-1), items[i], depth + 1)
      {
        BothModes(items[i], depth + 1);
      }
    case ObjectDoc(members) =>
      forall i | 0 <= i < |members|
        ensures Acceptable(BODY_MODE, members[i].value, depth + 1)
          <==>
          && Acceptable(STANDARD_MODE, members[i].value, depth + 1)
          && Acceptable(UniqueMode(-1), members[i].value, depth + 1)
      {
        BothModes(members[i].value, depth + 1);
      }
  }

  /** A body is understood as a value exactly when it prints one document with that value, other than
      null, nested at most 10000 deep, none of whose objects repeats a key; numbers keep their text. */
  lemma BodyExact(raw: Raw, v: Value)
    ensures BodyOf(raw) == Some(Some(v)) <==>
      && !v.Null? && raw.Raw?
      && exists d :: Print(d) == raw.tokens && Acceptable(BODY_MODE, d, 0) && Meaning(STANDARD_MODE, d) == v
  {
    if BodyOf(raw) == Some(Some(v)) {
      var d := ParseSound(STANDARD_MODE, raw.tokens, 0);
      assert Print(d) + [] == Print(d);
      ParsePrint(STANDARD_MODE, d, 0, []);
      ParsePrint(UniqueMode(-1), d, 0, []);
      BothModes(d, 0);
    }
    if raw.Raw? && !v.Null? {
      forall d | Print(d) == raw.tokens && Acceptable(BODY_MODE, d, 0) && Meaning(STANDARD_MODE, d) == v
        ensures BodyOf(raw) == Some(Some(v))
      {
        assert Print(d) + [] == Print(d);
        ParsePrint(STANDARD_MODE, d, 0, []);
        ParsePrint(UniqueMode(-1), d, 0, []);
        BothModes(d, 0);
      }
    }
  }

  /** No body is understood exactly for an empty one and for the document null. */
  lemma NoBodyExact(raw: Raw)
    ensures BodyOf(raw) == Some(None) <==> raw.Absent? || raw.tokens == [NullToken]
  {
    if raw.Raw? && BodyOf(raw) == Some(None) {
      var d := ParseSound(STANDARD_MODE, raw.tokens, 0);
      assert d.Scalar? && d.token.NullToken?;
      assert raw.tokens == [NullToken] + [];
    }
    assert raw.Raw? && raw.tokens == [NullToken] ==> raw.tokens[1..] == [];
  }

  /** An approval without a body and one with the body null approve the same requests, and a request
      without a body and one with the body null are decided alike. */
  lemma NullIsNoBody(d: Dispatch, a: Ask, utf8: bool, ds: seq<Dispatch>, fold: char -> char, accepted: seq<Key>,
      stage: int)
    requires d.request.body.Absent? && a.request.body.Absent?
    ensures DispatchKey(d.(request := d.request.(body := Raw(utf8, [NullToken]))), fold) == DispatchKey(d, fold)
    ensures var b := a.(request := a.request.(body := Raw(utf8, [NullToken])));
      && b.KeyIn(fold) == a.KeyIn(fold)
      && (Permits(ds, fold, accepted, stage, b.phase, b.live, b.actor, b.request)
          <==> Permits(ds, fold, accepted, stage, a.phase, a.live, a.actor, a.request))
  {
    hide Lower, BodyOf, Budget;
    NoBodyExact(Absent);
    NoBodyExact(Raw(utf8, [NullToken]));
  }

  /** Numbers in bodies keep their spelling: 1 and 1.0 are different requests. */
  lemma NumberBodiesByText(a: Numeral, b: Numeral, utf8: bool)
    ensures BodyOf(Raw(utf8, [NumberToken(a)])) == Some(Some(Num(a.Text())))
    ensures BodyOf(Raw(utf8, [NumberToken(a)])) == BodyOf(Raw(utf8, [NumberToken(b)])) <==> a.Text() == b.Text()
  {
    assert [NumberToken(a)][1..] == [] && [NumberToken(b)][1..] == [];
  }

  // ----- What it takes for two requests to be the same -----

  /** The same header name, up to case. */
  predicate SameName(fold: char -> char, a: string, b: string) {
    |a| == |b| && forall i :: 0 <= i < |a| ==> fold(a[i]) == fold(b[i])
  }

  ghost predicate NamesDiffer(fold: char -> char, headers: map<string, string>) {
    forall a, b :: a in headers && b in headers && a != b ==> !SameName(fold, a, b)
  }

  /** Each header of one has the same header with the same value in the other. */
  ghost predicate Carries(fold: char -> char, from: map<string, string>, to: map<string, string>) {
    forall a :: a in from ==> exists b :: b in to && SameName(fold, a, b) && to[b] == from[a]
  }

  ghost predicate SameHeaders(fold: char -> char, a: map<string, string>, b: map<string, string>) {
    Carries(fold, a, b) && Carries(fold, b, a)
  }

  lemma LoweredAlike(fold: char -> char, a: string, b: string)
    ensures LowerText(a, fold) == LowerText(b, fold) <==> SameName(fold, a, b)
  {
    var x, y := LowerText(a, fold), LowerText(b, fold);
    if x == y {
      assert |x| == |y|;
      forall i | 0 <= i < |a|
        ensures fold(a[i]) == fold(b[i])
      {
        assert x[i] == y[i];
      }
    }
  }

  /** Lowering refuses exactly names that agree up to case; otherwise it keeps every value under its
      lowered name and adds nothing. */
  lemma LowerExact(headers: map<string, string>, fold: char -> char)
    ensures Lower(headers, fold).Some? <==> NamesDiffer(fold, headers)
    ensures Lower(headers, fold).Some? ==>
      var low := Lower(headers, fold).value;
      && (forall k :: k in headers ==> LowerText(k, fold) in low && low[LowerText(k, fold)] == headers[k])
      && (forall n :: n in low ==> exists k :: k in headers && LowerText(k, fold) == n)
  {
    hide LowerText, SameName;
    forall a, b
      ensures LowerText(a, fold) == LowerText(b, fold) <==> SameName(fold, a, b)
    {
      LoweredAlike(fold, a, b);
    }
  }

  lemma LowerAgree(a: map<string, string>, b: map<string, string>, fold: char -> char)
    requires Lower(a, fold).Some? && Lower(b, fold).Some?
    ensures Lower(a, fold) == Lower(b, fold) <==> SameHeaders(fold, a, b)
  {
    hide Lower, Carries;
    var x, y := Lower(a, fold).value, Lower(b, fold).value;
    if x == y {
      CarriesLowered(a, b, fold);
      CarriesLowered(b, a, fold);
    }
    if SameHeaders(fold, a, b) {
      LoweredCarries(a, b, fold);
      LoweredCarries(b, a, fold);
      assert x.Keys == y.Keys;
    }
  }

  lemma CarriesLowered(a: map<string, string>, b: map<string, string>, fold: char -> char)
    requires Lower(a, fold).Some? && Lower(a, fold) == Lower(b, fold)
    ensures Carries(fold, a, b)
  {
    hide Lower, SameName, LowerText;
    LowerExact(a, fold);
    LowerExact(b, fold);
    forall k | k in a
      ensures exists j :: j in b && SameName(fold, k, j) && b[j] == a[k]
    {
      var j :| j in b && LowerText(j, fold) == LowerText(k, fold);
      LoweredAlike(fold, k, j);
    }
  }

  lemma LoweredCarries(a: map<string, string>, b: map<string, string>, fold: char -> char)
    requires Lower(a, fold).Some? && Lower(b, fold).Some? && Carries(fold, a, b)
    ensures var x, y := Lower(a, fold).value, Lower(b, fold).value; forall n :: n in x ==> n in y && y[n] == x[n]
  {
    hide Lower, SameName, LowerText;
    LowerExact(a, fold);
    LowerExact(b, fold);
    var x, y := Lower(a, fold).value, Lower(b, fold).value;
    forall n | n in x
      ensures n in y && y[n] == x[n]
    {
      var k :| k in a && LowerText(k, fold) == n;
      var j :| j in b && SameName(fold, k, j) && b[j] == a[k];
      LoweredAlike(fold, k, j);
    }
  }

  /** Two requests draw on the same budget only if they agree in everything that is sent. */
  ghost predicate SameRequest(fold: char -> char, a: Ask, b: Ask) {
    && a.phase == b.phase && a.actor == b.actor
    && (a.request.verb == b.request.verb || {a.request.verb, b.request.verb} == {"", "GET"})
    && a.request.url == b.request.url && a.request.query == b.request.query
    && SameHeaders(fold, a.request.headers, b.request.headers)
    && BodyOf(a.request.body) == BodyOf(b.request.body)
  }

  /** Main result: a request has a key exactly when its header names differ and its body is understood,
      and two keys are equal exactly for the same phase, actor, verb, address, query, headers up to the
      case of their names, and body meaning. */
  lemma KeysEqualIff(fold: char -> char, a: Ask, b: Ask)
    ensures a.KeyIn(fold).Some? <==> NamesDiffer(fold, a.request.headers) && BodyOf(a.request.body).Some?
    ensures a.KeyIn(fold).Some? && b.KeyIn(fold).Some? ==> (a.KeyIn(fold) == b.KeyIn(fold) <==> SameRequest(fold, a, b))
  {
    hide Lower, BodyOf, SameHeaders, NamesDiffer, KeyOf;
    KeyParts(fold, a.phase, a.actor, a.request);
    KeyParts(fold, b.phase, b.actor, b.request);
    LowerExact(a.request.headers, fold);
    if a.KeyIn(fold).Some? && b.KeyIn(fold).Some? {
      LowerAgree(a.request.headers, b.request.headers, fold);
      SameVerb(a.request.verb, b.request.verb);
    }
  }

  lemma SameVerb(a: string, b: string)
    ensures (if a == "" then "GET" else a) == (if b == "" then "GET" else b) <==> (a == b || {a, b} == {"", "GET"})
  {
    if {a, b} == {"", "GET"} {
      assert a in {"", "GET"} && b in {"", "GET"} && "" in {a, b} && "GET" in {a, b};
    }
  }

  function AskOf(d: Dispatch): Ask {
    Ask(d.phase, true, d.identityId, d.request)
  }

  /** A request that any guard permits is, in this sense, one of the dispatches its plan lists. */
  lemma PermittedIsListed(ds: seq<Dispatch>, fold: char -> char, accepted: seq<Key>, stage: int, a: Ask)
    requires NonNegative(ds) && Permits(ds, fold, accepted, stage, a.phase, a.live, a.actor, a.request)
    ensures exists i :: 0 <= i < |ds| && AskOf(ds[i]).KeyIn(fold).Some? && SameRequest(fold, a, AskOf(ds[i]))
  {
    hide KeyOf, SameRequest, SumWhere;
    var key := a.KeyIn(fold).value;
    var none := seq(|ds|, i => 0);
    ZeroSums(ds, none, key, fold);
    RoomIsBudget(ds, none, Maxima(ds), key, fold);
    var i :| 0 <= i < |ds| && DispatchKey(ds[i], fold) == Some(key) && none[i] < Maxima(ds)[i];
    KeysEqualIff(fold, a, AskOf(ds[i]));
  }

  /** Main result: whatever sequence of requests is made, each one let through is one of the listed. */
  lemma {:induction false} AcceptedIsListed(ds: seq<Dispatch>, fold: char -> char, asks: seq<Ask>, n: nat)
    requires NonNegative(ds) && n < |asks|
    requires n < |Decide(ds, fold, asks).decisions| && Decide(ds, fold, asks).decisions[n]
    ensures exists i :: 0 <= i < |ds| && SameRequest(fold, asks[n], AskOf(ds[i]))
    decreases |asks|
  {
    hide KeyOf, SameRequest, Permits, Stage;
    var m := |asks| - 1;
    var l, a := Decide(ds, fold, asks[..m]), asks[m];
    DecisionCount(ds, fold, asks[..m]);
    if n < m {
      assert asks[..m][n] == asks[n];
      AcceptedIsListed(ds, fold, asks[..m], n);
    } else {
      PermittedIsListed(ds, fold, l.accepted, l.stage, a);
    }
  }

  lemma ApprovedBounds(plan: Plan, urlOk: string -> bool, fold: char -> char, i: nat)
    requires PlanOk(plan, urlOk, fold) && i < |plan.dispatches|
    ensures var d := plan.dispatches[i];
      && urlOk(d.request.url) && d.identityId != "" && d.phase.Some? && 1 <= d.max <= 100000
      && d.request.verb in {"GET", "HEAD", "OPTIONS", "POST", "PUT", "PATCH", "DELETE"}
  {
    assert DispatchOk(plan.dispatches[i], urlOk, fold);
  }

  /** Hence a guard made from an acceptable plan only ever lets through requests of a known phase and actor, with
      one of seven verbs or none, to an address the plan may list. */
  lemma ApprovedTraffic(plan: Plan, urlOk: string -> bool, fold: char -> char, asks: seq<Ask>, n: nat)
    requires PlanOk(plan, urlOk, fold) && n < |asks|
    requires var decisions := Decide(plan.dispatches, fold, asks).decisions; n < |decisions| && decisions[n]
    ensures var a := asks[n];
      && urlOk(a.request.url) && a.actor != "" && a.phase.Some?
      && a.request.verb in {"", "GET", "HEAD", "OPTIONS", "POST", "PUT", "PATCH", "DELETE"}
  {
    hide Decide, PlanOk, SameHeaders, BodyOf;
    forall i | 0 <= i < |plan.dispatches|
      ensures plan.dispatches[i].max >= 1
    {
      ApprovedBounds(plan, urlOk, fold, i);
    }
    AcceptedIsListed(plan.dispatches, fold, asks, n);
    var i :| 0 <= i < |plan.dispatches| && SameRequest(fold, asks[n], AskOf(plan.dispatches[i]));
    ApprovedBounds(plan, urlOk, fold, i);
    var verb, listed := asks[n].request.verb, plan.dispatches[i].request.verb;
    assert verb == listed || verb in {verb, listed};
  }

  lemma DecisionCount(ds: seq<Dispatch>, fold: char -> char, asks: seq<Ask>)
    ensures |Decide(ds, fold, asks).decisions| == |asks|
  {
    hide Permits, KeyOf, Stage;
    if asks != [] {
      DecisionCount(ds, fold, asks[..|asks| - 1]);
    }
  }
}
