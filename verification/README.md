# VardrGate, modelled and verified

VardrGate sends one HTTP request as several identities and judges from the responses, or from
separate reads of the target's state, whether access control held. This project models the parts of
it that carry that judgement and proves what they promise, for every test case, every server and
every run.

`dafny verify dfyconfig.toml` checks the whole project.

## How it is organised

| files | what they model |
|---|---|
| `Decimal`, `Number` | the canonical form of JSON numbers, with unbounded exponents |
| `Json`, `Decoder`, `Limits` | documents, the strict decoder and the duplicate-key checker over token streams; what they accept and what it means, place by place |
| `Pointer` | JSON Pointer: parsing, escaping, evaluation |
| `Substitution`, `Stages` | the three template substituters, and filling a path in two stages |
| `Dotted`, `Readings` | dotted paths read regardless of case, and deny conditions: what a body can be read as, and what a preflight confirms |
| `Model`, `Server` | the engine's data; an arbitrary server behind a recording executor |
| `Validation`, `Verify`, `Judgement`, `Principal`, `Setup`, `Engine` | the engine: each phase as a method on the executor beside the function it is proved equal to |
| `Conclusions`, `Reports` | when each conclusion and each reason is given, from responses alone |
| `Attempts`, `Order`, `Runs`, `RunTheorems`, `RunResults` | what every attempt and every run keeps, against any server |
| `Requests` | what every request of a run is, against what the case declares, and what a validated case never sends |
| `Agreement`, `Disagreement`, `Reach`, `CaseAgreement` | when findings agree with assessments: exactly, for one run, for one case, for validated cases |
| `Guard`, `Transparency`, `Composition` | the request guard, runs on a wrapped server, and engine and guard together |
| `Policy` | binding a policy's roles to identities, the verifier and the expectations |
| `Sorting`, `Queue`, `Histories`, `Stores` | the job queue, what can be read from it after any run, and its two implementations |
| `Profiles`, `Fields`, `Places` | response profiles and field lookup, and both told by places in the value |
| `Benchmark` | the accuracy benchmark's accounting |

A server is a state and a step function from a request to the next state, a response and whether the
run was cancelled meanwhile; nothing else is assumed of it. Where the code takes the first match of a map
iteration, the order it meets keys in is an arbitrary function of the occasion (`Server.Library.order`), so
two readings of one body may differ and every result holds for every order. A run yields the list of requests sent,
each with the states before and after it, the response, and whether the run was live at its start and
cancelled at its end. Cancellation is a flag that only steps of the server set and nothing clears.

The code that changes things step by step is written that way here: the executor, the verification
session, the decoder, the guard, both stores and the profile walk are classes, the loops are loops,
and each method is proved equal to a function over the old state. The theorems are about those
functions.

## Conditions the results need

* *No error kind without an error.* Findings on the status path look at the error text alone, assessments
  at the error kind as well. `HonestErrors` says that a response with an error kind has an error, as the HTTP
  client always sets both. `RunAgreesExactly` needs no such assumption: it says for every run which recorded
  response parts a finding from its assessment. `SilentErrorKindDisagrees` is a run in which that happens.
* *Deny conditions with two readings.* On the status path a response is classified once for the record and
  once for the finding. A dotted path in a deny condition takes, where a body has no exact key, the first key
  of a map iteration that is equal up to case, so the two readings can differ, although comments promise a
  deterministic answer (internal/compare/compare.go:283-288) and that record and findings cannot disagree
  (internal/engine/engine.go:184-187). `RunAgreesExactly` counts this as the third way in which a finding and
  an assessment part. `ReadsOnceIff` says exactly which bodies have one
  reading, `CanBeOpenIff` and `AmbiguousIff` exactly which conditions any body can leave open: some part of the
  path has two characters with another case, or one with two. `AmbiguousFieldDisagrees` is a run on the
  body `{"Status":"denied","STATUS":"ok"}`. Results that need agreement ask for a condition no body leaves
  open (`DenySettled`), or that no identity is judged by one that can be (`Wavering`).
* *Differing entries for one identity.* On the verified path the first entry is judged against and the last
  reported against. The code accepts such cases. `DuplicateExpectationsDisagree` is a run of one. One entry per
  identity, as every compiled policy has, is more than enough (`Coherent`, `CompiledIsUnambiguous`).
* *The exact condition on a case.* `ValidAgreementIff` says exactly for which validated cases some whole run,
  setup and binding included, makes a finding and an assessment disagree: some responses let setup and binding
  finish (`CanFinish`), the fields of every declared preflight are compatible, and there is an identity that is
  either wavering, or whose write is verified in a known environment with a first and a last entry that
  differ, while the decoder's depth limit leaves room for a value at the pointer.
* *Clashing preflight fields.* Validation looks at each field of a preflight by itself and accepts `user`
  beside `user.id`, which no body can match (`ClashingFields`). `SatisfiableIff` says exactly which fields
  some body matches; a case with others never gets past its preflights (`UnconfirmableIsUnready`).
* *A null body is no body.* The guard counts requests without a body and requests with the body `null`
  against the same budget (`NullIsNoBody`).
* *Braces in path parameters.* `StagesComposeIff` says exactly for which path and parameters filling in two
  stages equals filling at once; `BracesAreRescanned` is a path for which it does not.
* *A server whose reads change nothing* (`QuietReads`) is needed only where a verdict is tied to the
  server's own state rather than to what was read from it.
* *Text and encodings.* Lower-casing works per character, is the usual one on ASCII (`AgreesOnAscii`) and
  changes nothing the second time (`Idempotent`); documents and instants decode to what was encoded
  (`Lossless`).
* *Requests written out in full* (`Concrete`), and no request started after cancellation, are what the
  guard's projection presumes; credentials may still come from setup.

## Model

| member | source | states |
|---|---|---|
| Number.NormalizeNumber | internal/engine/assertion_json.go:98-120 | on the text of any JSON number the in-place algorithm yields the canonical form: reduced coefficient, sign and exponent |
| Number.NormalizedIffEqualValue | internal/engine/assertion_json.go:94-120 | two number literals have the same canonical form exactly when they denote the same rational, whatever their zeros, signs, fractions and exponents |
| Number.ReducedUnique | internal/engine/assertion_json.go:96-97 | a coefficient not divisible by ten and an exponent are determined by the rational they denote |
| Number.PlainValue | internal/engine/assertion_json.go:98-120 | a literal of digits denotes those digits as a number, negated behind a minus sign |
| Number.FractionValue | internal/engine/assertion_json.go:98-120 | each fraction digit adds its own share, tenths, hundredths and so on, to the magnitude |
| Number.ExponentValue | internal/engine/assertion_json.go:98-120 | an exponent multiplies by that power of ten, or divides by it behind a minus sign |
| Number.NormalizedDenotes | internal/engine/assertion_json.go:94-120 | the canonical text, read as sign, coefficient and exponent, denotes the value of the literal |
| Json.ParsePrint | internal/engine/assertion_json.go:31-92 | decoding the tokens of an acceptable document in front of any other tokens gives its value and leaves the rest; an unacceptable one is refused |
| Json.ParseSound | internal/engine/assertion_json.go:31-92 | whatever is decoded was the printed form of an acceptable document, and the value returned is that document's |
| Json.ParseAllExact | internal/engine/assertion_json.go:15-29 | a text decodes to a value exactly when it prints one document with that value, distinct keys, depth at most 64, numbers at most 128 characters and nothing behind it |
| Json.LimitOnDoc | internal/engine/assertion_json.go:31-60 | the number limit excludes exactly the documents holding a longer number, and changes nothing else |
| Json.NumbersDecodeByValue | internal/engine/assertion_json.go:86-92 | two number bodies of at most 128 characters decode alike exactly when they denote the same value |
| Json.DocumentsDecodeByValue | internal/engine/assertion_json.go:31-92 | two documents that differ only in how numbers are written decode alike exactly when all of these denote the same values |
| Limits.AcceptableIff | internal/engine/assertion_json.go:31-92 | a document is acceptable to a decoder exactly when each of its parts keeps the limits where it stands |
| Limits.DecodeExact | internal/engine/assertion_json.go:15-92 | a text decodes exactly when it is one document no part of which is more than 64 levels down, has a number over 128 characters or a key twice |
| Limits.PartsMean | internal/engine/assertion_json.go:31-92 | in a document without repeated keys every part means, at its own place in the value, just what it says |
| Limits.UniqueAccepts | internal/requestguard/guard.go:117-157 | the duplicate-key checker refuses exactly documents with a key twice in an object or a part below its depth |
| Json.DecodeAgreesWithUnique | internal/requestguard/guard.go:117-157 | the assertion decoder accepts a stream exactly when the duplicate-key checker with depth 64 does and no number read exceeds 128 characters; both stop at the same place |
| Decoder.Decoder.NextToken | internal/engine/assertion_json.go:31-45 | the token reader's grammar state: which tokens may follow, and what each does to the open containers |
| Decoder.DecodeValue | internal/engine/assertion_json.go:31-92 | the token-by-token decoder accepts, returns and consumes exactly what the document grammar says |
| Decoder.DecodeAssertionJson | internal/engine/assertion_json.go:15-29 | the entry point refuses absent and ill-encoded bodies and trailing content, and otherwise decodes exactly |
| Decoder.Unique | internal/requestguard/guard.go:117-157 | the duplicate-key checker accepts exactly the documents with distinct keys within the depth bound, and consumes exactly one |
| Pointer.PointerTokens | internal/engine/assertions.go:128-149 | the in-place token rewriting yields the unescaped tokens exactly when every escape is valid |
| Pointer.TwoPassesUnescape | internal/engine/assertions.go:138-147 | on valid tokens the two replacement passes equal one left-to-right unescape |
| Pointer.TokensOfRender | internal/engine/assertions.go:128-149 | rendering any token list and parsing it gives the list back |
| Pointer.RenderOfTokens | internal/engine/assertions.go:128-149 | every accepted pointer is the rendering of its tokens |
| Pointer.PointerValue | internal/engine/assertions.go:151-179 | the walk that replaces the current value token by token evaluates the whole token list |
| Pointer.NodeIsPointed | internal/engine/assertions.go:151-179 | following the printed path of any node of any value returns that node |
| Pointer.EvaluateExact | internal/engine/assertions.go:128-179 | a pointer selects a value exactly when it is the printed path of a node equal to it |
| Substitution.SubstituteText | internal/engine/setup.go:206-231 | the loop that shortens the text fills exactly the parsed holes and never looks at an inserted value; it fails exactly on an open hole or an unknown name |
| Substitution.Expand | internal/secretref/secretref.go:24-49 | the same for environment references |
| Substitution.SubstitutePath | internal/policy/policy.go:408-440 | path parameters are filled, run-time variables are kept as they are written, and unterminated or unbound holes are refused |
| Substitution.ParseExact | internal/engine/setup.go:206-231 | a text has exactly one reading as literal pieces and holes that prints back to it |
| Stages.StagesComposeIff | internal/policy/policy.go:408-440 | filling the path at compile time and the variables at run time gives, for all captured values, the text of filling both at once exactly when the filled path opens no variable reference that the path did not write |
| Stages.StagesCompose | internal/policy/policy.go:408-440 | values without an opening brace in the parameters the path uses always meet that condition |
| Stages.BracesAreRescanned | internal/policy/policy.go:408-440 | a path and a parameter that fail it: the inserted value is read again as a variable reference |
| Substitution.NoHole | internal/engine/setup.go:207-209 | a text without an opening brace pair is returned as it is, whatever was captured |
| Substitution.SubstituteExact | internal/engine/setup.go:206-231 | a text becomes another exactly when that one is its literal pieces with the captured values between them |
| Substitution.ExpandExact | internal/secretref/secretref.go:24-49 | the same for environment references |
| Substitution.PathExact | internal/policy/policy.go:408-440 | the same for path parameters, with run-time variables kept as written |
| Substitution.CutExact | internal/engine/setup.go:206-231 | a text is cut at the first occurrence of a mark, and nowhere exactly when it does not occur |
| Substitution.TrimSpaceExact | internal/engine/setup.go:206-231 | trimming removes exactly the blanks at both ends |
| Model.ClassifyOutcomeWith | internal/model/model.go:119-144 | exactly which statuses count as allowed, denied, not found, redirect, server error, client error or neither, declared deny statuses first |
| Model.ExpectedIsFirst | internal/engine/engine.go:859-866 | the lookup finds the first entry for the identity |
| Model.LastIsLast | internal/engine/engine.go:207-210 | the map filled in order holds the last one |
| Model.UniqueLookup | internal/engine/engine.go:859-866 | the first and the last entry for an identity agree when entries are unique |
| Server.Executor.Execute | internal/engine/engine.go:17-28 | one request: the server's own answer, its state change, the cancellation it saw, and one more recorded event |
| Verify.ObserveState | internal/engine/verify.go:168-217 | a verifier read sends nothing on a cancelled run, discards a response that arrives after cancellation, and otherwise understands it as the reading rules say |
| Verify.ExecuteVerified | internal/engine/verify.go:219-325 | reset, two reads, write and readback in place, equal in requests, session, execution and assessment to the attempt function |
| Verify.JudgeInto | internal/engine/verify.go:300-325 | the closing switch yields the verdict and reason of the judgement function and changes no other field |
| Validation.Validate | internal/engine/engine.go:744-836 | the check run before anything is sent accepts exactly the valid cases |
| Validation.CheckIdentities | internal/engine/engine.go:752-764 | accepts exactly non-empty, credentialed, pairwise distinct identities |
| Validation.CheckSetup | internal/engine/setup.go:259-291 | accepts exactly setups whose steps are valid and whose names do not repeat |
| Validation.CheckStrict | internal/engine/preflight.go:18-47 | strict mode demands an assessed identity, and a preflight for every assessed one that authenticates |
| Attempts.AttemptDiscipline | internal/engine/verify.go:219-325 | against any server: at most a reset, two reads, one write and a readback, in that order and only on a live run; a write only behind a completed reset and two equal usable reads; and exactly the verdict the exchanged states justify |
| Attempts.AttemptProceeds | internal/engine/verify.go:219-325 | the converse: exactly when each request of an attempt goes out; in particular a completed reset, two equal usable reads, an agreeing session baseline and no cancellation do send the write |
| Attempts.ReadingMeans | internal/engine/verify.go:168-214 | a read is usable exactly when it completed with a reviewed status, a success whose pointer selects a value if one is asked for, or an absent resource where the strategy allows it; it then establishes that status and the selected value, and any other read says why it is of no use |
| Attempts.JudgeIsVerdict | internal/engine/verify.go:300-325 | the order-dependent switch says allowed exactly on the strategy's transition, denied exactly on an unchanged readback of a completed write in a known environment |
| Attempts.AllowedMeansChanged | internal/engine/verify.go:219-325 | on a server whose reads change nothing, no request that left the state unchanged is judged allowed |
| Reports.AttemptTells | internal/engine/verify.go:219-325 | the reason of every attempt, the statuses in its evidence and the baseline it leaves are exactly those its requests and their answers tell, for each of the ways it can end |
| Judgement.Assess | internal/engine/assertions.go:49-126 | the loop over assertion rules concludes allowed or denied exactly when only rules of that kind match, lists the matching rules, and gives the reason for every other case |
| Judgement.RuleMatchesByValue | internal/engine/assertions.go:49-126 | a rule asking for a number matches the selected number exactly when both denote the same value, however they are written |
| Conclusions.MatchesExact | internal/engine/assertions.go:85-108 | a valid rule matches exactly when the status is listed, if any is, and the wanted value stands at a node whose printed path the rule names |
| Conclusions.ConclusionMeans | internal/engine/assertions.go:49-126 | allowed or denied is concluded exactly when some satisfied rule says so and none the opposite, or without rules when the outcome does; source, reason and matching rules of every other case |
| Judgement.GuardVerifiedDenials | internal/engine/verify.go:330-352 | rewriting the map entry by entry in any order gives the guarded map |
| Judgement.NoUncalibratedDenial | internal/engine/verify.go:330-352 | after the guard a surviving verified denial has a verified legitimate write beside it; the withdrawn ones carry the right reason; every other entry is untouched |
| Judgement.GuardIdempotent | internal/engine/verify.go:330-352 | guarding twice is guarding once |
| Judgement.Demoted | internal/engine/credential.go:24-29 | a denial is withdrawn exactly when it was expected and the credential was rejected; nothing else changes |
| Judgement.CategoryMeans | internal/engine/engine.go:424-459 | missing authentication, cross-tenant access, foreign object and lower role: each category is reported exactly when its own condition holds and no more specific one does |
| Judgement.RankIsFirst | internal/engine/engine.go:476-483 | a role's rank is the first place the hierarchy lists it, and there is none exactly when it is not listed |
| Dotted.LookupInsensitive | internal/compare/compare.go:317-327 | the exact key if there is one, else the spelling that iteration meets first, and nothing exactly when no key is equal up to case |
| Dotted.PickedIs | internal/compare/compare.go:317-327 | an exact key is always picked; otherwise every spelling is picked in some order, and nothing else ever is |
| Dotted.ValueAtPath | internal/compare/compare.go:289-315 | the walk over the parts, which looks through lists of one element, reads what the path reads in that order |
| Dotted.OneReadingIff | internal/compare/compare.go:283-327 | a path has one reading in a value, whatever the order, exactly when the spellings that rival each other on its way read alike |
| Dotted.ReadsOnceIff | internal/compare/compare.go:283-327 | the same for a body, which may also hold nothing readable |
| Readings.ExactPathReads | internal/compare/compare.go:289-315 | a path spelled exactly reads the scalar it leads to, through lists of one element, whatever else the body holds and in every order of iteration |
| Readings.ReadsExactly | internal/compare/compare.go:289-332 | a path can be read as a text, in some order of iteration, exactly when it leads up to case, exact names first, to a scalar that shows so |
| Dotted.AmbiguousIff | internal/compare/compare.go:317-327 | a name has two more spellings exactly when two of its characters have another case or one has two |
| Dotted.MatchesDeny | internal/compare/compare.go:334-360 | the texts looked for come first; then the field condition holds of the value read at the path in that order |
| Dotted.CanBeOpenIff | internal/compare/compare.go:334-360 | some body leaves a deny condition open only if its path fits into a document and has an ambiguous part; without texts to look for, exactly then |
| Judgement.ClassifyResponse | internal/engine/engine.go:514-522 | one classification of a response on one occasion: error, deny condition, status line, in this order |
| Judgement.EvaluateResponse | internal/engine/engine.go:346-364 | the status path classifies the response once more and reports exactly a contradicted expectation |
| Setup.RunSetup | internal/engine/setup.go:36-93 | the steps run in order with the variables captured so far, and the first failure ends the run |
| RunResults.SetupCompletes | internal/engine/setup.go:36-93 | a finished setup sent every step once and in order, each answered with success and with every declared capture, and each variable holds what the last step to capture it read on that occasion |
| Setup.CaptureAll | internal/engine/setup.go:83-90 | a step captures what each path is read as on its own occasion, in whatever order the captures are taken, or nothing if one of them has no value |
| Setup.CapturesSteadyIff | internal/engine/setup.go:83-90 | captures are the same for all orders of iteration exactly when every captured path has one reading in the body, or some captured path never has a value |
| RunResults.SetupReaches | internal/engine/setup.go:36-93 | for every order of iteration a setup sends exactly the steps up to the first whose request cannot be built or is not answered with success and every declared capture; it finishes exactly when there is no such step |
| Principal.MatchesPrincipal | internal/engine/preflight.go:129-165 | the loop over fields and path parts accepts exactly the bodies that are one document with the expected scalar text at every dotted path |
| Principal.SatisfiableIff | internal/engine/preflight.go:129-165 | some body matches the declared fields exactly when no path followed by a dot begins another and no path has more parts than a document has levels |
| Principal.ClashingFields | internal/engine/preflight.go:59-71 | fields that pass every check made of a field by itself and that no body matches |
| Setup.RunPreflight | internal/engine/preflight.go:100-125 | one probe per declared preflight, each judged on its own response, and ready exactly when all passed |
| Readings.ProbePasses | internal/engine/preflight.go:100-165 | a probe passes exactly when it was answered with the expected status, not a refusal, and with one document that shows every declared field under its names; the reason of every other answer |
| Order.OrderIsPermutation | internal/engine/verify.go:358-371 | every declared identity is executed exactly as often as declared, deny-expected ones all first when writes are verified |
| Order.OrderIsStable | internal/engine/verify.go:358-371 | each of the two groups keeps its declared order |
| Engine.OrderIdentities | internal/engine/verify.go:358-371 | the two appending lists give the execution order |
| Engine.ExecuteIdentities | internal/engine/engine.go:169-192 | the first pass fills the execution and assessment maps and the session as the pass function says |
| Engine.ConcludeAll | internal/engine/engine.go:193-259 | the second pass appends executions, assessments and access findings in declared order |
| Engine.ConcludeOne | internal/engine/engine.go:211-253 | the assessment and the access finding of one identity on the status, assertion and verified paths |
| Engine.RunCase | internal/engine/engine.go:117-270 | a whole run, step by step, equals the run function in result and recorded requests |
| Runs.OneBlock | internal/engine/engine.go:172-192 | one identity's requests form one well-shaped block, its records are those the block justifies, and the shared baseline is kept |
| Runs.PassBlocks | internal/engine/engine.go:172-192 | the first pass sends one block per identity in execution order, and what it recorded about each is never overwritten |
| RunTheorems.RunShape | internal/engine/engine.go:133-192 | every run is its probes and then, only if all passed, its blocks |
| RunTheorems.TraceDiscipline | internal/engine/engine.go:133-192 | in every run: nothing is sent to the resource unless every preflight passed, each identity's request at most once, a verified one only right behind two equal usable baseline reads, reads and resets only on a live run |
| RunTheorems.WithheldAfterCancellation | internal/engine/verify.go:168-298 | once a request ended in cancellation, no later request of the run is a verifier read, a reset or a verified write |
| Agreement.RunAgreesExactly | internal/engine/engine.go:188-259 | in every run on any server, after demotion and guard, an identity's finding agrees with its final assessment exactly unless, on the status path, its response reads past an error kind or is classified differently for the record and for the finding, or its verified verdict contradicts only one of two differing entries |
| Agreement.ReadsTwiceIsOpen | internal/engine/engine.go:185-190 | a response is classified in two ways only if its body leaves the declared deny condition open |
| Disagreement.FindingsAgree | internal/engine/engine.go:188-259 | on a server without silent error kinds every run of a case without differing entries, whose deny condition no body leaves open, has an access finding for an identity exactly when its final assessment contradicts its expectation, on all three paths, and the category says which way |
| Disagreement.UnconfirmableIsUnready | internal/engine/preflight.go:100-125 | a case with a preflight that no response can pass is not ready in any run on any server |
| Disagreement.AgreementIff | internal/engine/engine.go:172-259 | every run of a bound case on every such server, for every order of iteration, is consistent exactly when some preflight can never pass or no identity can be parted: by a reachable verdict between differing entries, or by two readings of one response |
| Reach.PossibleIff | internal/engine/verify.go:168-214 | which verdicts any responses could lead to, read off the case: environment, strategy, and the depth left at the pointer for a value or the target |
| CaseAgreement.ValidAgreementIff | internal/engine/engine.go:117-270 | every finished whole run of a validated case is consistent exactly when no responses let setup and binding finish, or preflight fields clash, or no identity has differing entries that a reachable verdict tells apart and none is judged by the status line under a deny condition that some body leaves open |
| CaseAgreement.RunsAgree | internal/engine/engine.go:117-270 | every finished run, setup and binding included, of a case that cannot be parted is consistent, for servers of any state |
| Agreement.SomeVerdictSplits | internal/engine/engine.go:207-214 | for a verified identity some verdict contradicts only one of its first and last entries exactly when their decisions differ |
| Agreement.FindingAgreesExactly | internal/engine/engine.go:346-390 | the exact condition for one identity: the guards of the three ways in which finding and assessment part |
| RunResults.VerdictsHaveEvidence | internal/engine/verify.go:219-325 | in every run a verified allowed verdict has the strategy's transition around its own request in the trace, a denied one an unchanged readback of a completed write |
| RunResults.SameIsEquivalence | internal/engine/verify.go:160-164 | equality of observed states is reflexive, symmetric and transitive |
| RunResults.BaselinesAgree | internal/engine/verify.go:236-298 | with a reset declared, all verified writes of a run started from pairwise equal baselines |
| RunResults.DenialsAreCalibrated | internal/engine/verify.go:330-352 | in every run a final verified denial of a deny-expected identity comes with a verified allowed assessment of an allow-expected one |
| RunResults.StrictRunsAreAssured | internal/engine/preflight.go:18-47 | in strict mode nothing reaches the resource before every assessed, authenticating identity's principal was confirmed |
| RunResults.RunsAreBound | internal/engine/engine.go:117-153 | every finished run is a run of its bound case after setup only, and binding keeps identities, expectations and strategies, so the run results hold of all runs |
| Requests.RunSends | internal/engine/setup.go:36-204 | in every finished run each setup step sends its declared request filled with what was captured before it; every later request is a probe, the request under test with the probe origin, a verifier read with its verb, or a reset, filled with all that was captured and sent as the identity it belongs to |
| Requests.RunStaysPermitted | internal/engine/engine.go:744-836 | whatever was captured, a finished run sends an unsafe verb only if the case is declared mutating, reads with one only if that is allowed as well, reads and resets state only around declared changes, and sends credentials for principal checks to the tested origin alone |
| Requests.ReadsAreSafe | internal/engine/verify.go:139-144 | no verifier read of a run has an unsafe verb unless the case allows it |
| Requests.OriginsHold | internal/engine/verify.go:146-152 | where setup captures nothing, the request under test goes where it is declared to and reads and resets stay at its origin |
| CaseAgreement.DuplicateExpectationsDisagree | internal/engine/engine.go:172-214 | a validated case with verification and two entries, and a server on which its run is inconsistent |
| CaseAgreement.AmbiguousFieldDisagrees | internal/engine/engine.go:346-364 | one expectation and a body that spells the denied field in two cases: a run with a denied assessment next to a finding of access, and one with an undecided assessment next to a finding of denial |
| CaseAgreement.SilentErrorKindDisagrees | internal/engine/assertions.go:61-64 | a validated case and a server sending an error kind without an error on which its run is inconsistent |
| Guard.NewGuard | internal/requestguard/guard.go:172-211 | a guard is made exactly for the acceptable plans, and its stored dispatches have the plan's budgets |
| Guard.Guard.constructor | internal/requestguard/guard.go:196-211 | the copied plan approves the same requests equally often, and nothing is spent |
| Guard.Guard.Allow | internal/requestguard/guard.go:267-306 | accepts exactly when the run is live, the phase known and not behind, the request well formed and fewer equal requests were accepted than all matching dispatches allow together; the total stays the sum of the counters and within the plan; a refusal changes nothing |
| Guard.RoomIsBudget | internal/requestguard/guard.go:290-304 | some matching dispatch has room exactly when the matching counters together are below the matching maxima, so taking the first loses nothing |
| Guard.AllowEach | internal/requestguard/guard.go:267-306 | over any sequence of requests the guard decides as the plain budget monitor does |
| Guard.NeverOverspends | internal/requestguard/guard.go:267-306 | no sequence of requests gets more of any request through than the plan lists |
| Guard.AllPassIff | internal/requestguard/guard.go:267-306 | a whole sequence passes exactly when it is live, understood, never steps back and stays within every budget |
| Guard.LowerTwice | internal/requestguard/guard.go:229-239 | lower-casing stored headers again changes nothing |
| Guard.LowerExact | internal/requestguard/guard.go:229-239 | lower-casing is refused exactly when two names differ in case alone; otherwise it keeps every value under its lowered name and adds nothing |
| Guard.KeysEqualIff | internal/requestguard/guard.go:290-304 | two requests compare equal exactly when phase, actor, verb, URL, query and body agree and their headers correspond name by name up to case with equal values |
| Guard.PermittedIsListed | internal/requestguard/guard.go:290-304 | a permitted request is in this sense the same as a listed dispatch |
| Guard.AcceptedIsListed | internal/requestguard/guard.go:267-306 | over any sequence of requests each accepted one is the same as a listed dispatch |
| Guard.ApprovedTraffic | internal/requestguard/guard.go:172-211 | a guard made from an acceptable plan lets only requests of a known phase and a named actor through, with one of seven verbs or none, to an address the plan may list |
| Guard.NumberBodiesByText | internal/requestguard/guard.go:241-264 | bodies that are numbers are the same exactly when they are spelled the same |
| Guard.RequestBody | internal/requestguard/guard.go:241-264 | body decoding and the second pass for duplicate keys give the body's meaning, nothing for an empty body and for null, or a refusal |
| Guard.BodyExact | internal/requestguard/guard.go:241-264 | a body is understood as a value exactly when it prints one document with that value, other than null, within the depth limit, none of whose objects repeats a key |
| Guard.NoBodyExact | internal/requestguard/guard.go:241-264 | no body is understood exactly for an empty one and for the document null |
| Guard.NullIsNoBody | internal/requestguard/guard_test.go:260 | an absent and a null body approve the same requests and are decided alike, whatever was accepted before |
| Composition.CoveredBlock | internal/engine/verify.go:219-325 | whatever the server answers, one identity's requests stay within one write, three reads and one reset |
| Composition.RunFitsProjection | internal/engine/engine.go:117-196 | every run of a case whose requests are written out sends at most what its worst-case projection lists, phase after phase |
| Composition.GuardAllowsRun | internal/requestguard/guard.go:267-306 | a guard whose plan covers the projection refuses no request of a run exactly when none was started after cancellation; the number sent never exceeds the plan |
| Transparency.SameRun | internal/engine/engine.go:117-270 | for every order of iteration, a run on any wrapped server whose requests were all answered by the server inside has the outcome, requests and final server state of the run without the wrapper in the same order |
| Composition.GuardIsTransparent | internal/client/client.go:104-117 | for every order of iteration: with such a guard inside the executor, a run none of whose requests starts after cancellation is refused nothing and ends with the same outcome, the same requests at the server and the same server state as without any guard in the same order |
| Policy.SplitVerifier | internal/policy/policy.go:625-650 | succeeds exactly when the verifier's role is named, has no expectation and is held by one identity; the others keep their order |
| Policy.CompileExpectations | internal/policy/policy.go:277-299 | one entry per bound identity, in order, exactly when every role has a readable expectation |
| Policy.CompiledIsUnambiguous | internal/policy/policy.go:277-299 | compiled expectations are unique exactly when the identities are distinct, and then each identity finds its own |
| Policy.CompiledRunsAgree | internal/policy/policy.go:237-321 | for compiled cases findings and assessments of every finished run agree with no assumption about expectations, unless an identity is judged by the status line under a deny condition that some body leaves open |
| Policy.CompiledAgreementIff | internal/policy/policy.go:237-321 | for validated compiled cases that can finish and pass their preflights, exactly then |
| Sorting.SortNames | internal/store/store.go:231-240 | collecting names in any order and sorting gives the one ascending list |
| Sorting.SortedIsUnique | internal/compare/compare.go:59-63 | a set of names has only one ascending list |
| Places.LessExact | internal/store/store.go:231-240 | a name comes before another exactly when the other continues it or the first character in which they differ is smaller |
| Queue.ClaimedAtMostOnce | internal/store/store.go:159-173 | in any run from any state a claimed job stays claimed by that runner and every later claim of it fails |
| Queue.RunEvolves | internal/store/store.go:117-257 | no operation loses a job, returns one to pending, re-assigns a claimed one or shortens the audit log |
| Queue.ClaimIffPending | internal/store/store.go:146-173 | at every point of any run a claim succeeds exactly for a job a listing would show as pending, and hands over that job |
| Queue.RunKeeps | internal/store/store.go:117-257 | through every run each job and runner stays filed under its own name |
| Queue.CompleteEnds | internal/store/store.go:206-220 | a completion is accepted exactly for a known job and a final status, and then the job has the given status and message |
| Queue.CompletedStays | internal/store/store.go:175-221 | in any run the job keeps both until it is completed again |
| Histories.JobReads | internal/store/store.go:159-221 | in any run a job is what it was created as, with the result, message and runner of the last operation that could set them, the status its claims, events and completions lead to, and all events appended to it, in order and stamped |
| Histories.ChangesAreDated | internal/store/store.go:159-221 | nothing but an accepted operation naming a job changes any part of it, and it then shows the last instant read for that operation |
| Histories.CreatedAsGiven | internal/store/store.go:117-134 | creation succeeds exactly for a new name, its own or a generated one, and stores the job as given, pending, with one instant |
| Histories.KnownIffCreated | internal/store/store.go:117-134 | in any run a job is known exactly when it was at the start or an accepted creation made it since |
| Histories.RegistryReads | internal/store/store.go:222-229 | in any run the registry holds each runner as it last reported |
| Histories.LogReads | internal/store/store.go:242-249 | in any run the log is the entries given to it, in order |
| Histories.ReadingAnswers | internal/store/store.go:136-157 | what each reading operation answers: the job, exactly the pending jobs, each runner once by name, the most recent entries |
| Stores.Memory.Create | internal/store/store.go:117-134 | stores a new pending record under a given or generated id, or refuses a known one, as the queue says |
| Stores.Memory.Claim | internal/store/store.go:159-173 | rewrites one record in place, leaving all others alone |
| Stores.Memory.AppendEvent | internal/store/store.go:175-192 | appends a stamped event and advances a claimed job in place |
| Stores.Memory.Pending | internal/store/store.go:146-157 | each pending job once, oldest first, whatever order the map yields |
| Stores.Memory.Do | internal/store/store.go:117-267 | every operation on the records gives the queue's response and state |
| Stores.SQLite.Update | internal/store/sqlite.go:311-320 | rewriting a row's document and status column keeps the column equal to the document and changes that job alone |
| Stores.SQLite.Create | internal/store/sqlite.go:72-94 | inserts a row whose columns agree with its document |
| Stores.SQLite.Claim | internal/store/sqlite.go:128-147 | load, change and write back equal the in-place claim |
| Stores.SQLite.Pending | internal/store/sqlite.go:106-126 | selecting by the status column finds exactly the pending jobs, each once |
| Stores.SQLite.AuditLog | internal/store/sqlite.go:252-284 | newest first, limited and reversed in place equals the tail of the log |
| Stores.SQLite.Runners | internal/store/sqlite.go:218-238 | rows ordered by host name equal the sorted registry |
| Stores.SQLite.Do | internal/store/sqlite.go:72-284 | every operation on the tables gives the queue's response and state |
| Stores.Lockstep | internal/store/sqlite.go:72-320 | the same operations on both stores give the same responses one by one and equal contents |
| Profiles.Profiler.Walk | internal/compare/compare.go:57-99 | never more than 2048 tokens, none that the value does not have, the flag set exactly when some visited node found no room, everything collected when none did |
| Profiles.ProfileOf | internal/compare/compare.go:24-55 | tokens and fields are the sorted tokens collected and their paths |
| Profiles.CutOffIff | internal/compare/compare.go:57-69 | a profile is cut off exactly when the value lies deeper than 64 levels or the nodes before the last one visited already have 2048 different tokens |
| Profiles.CutOffWhenTooLarge | internal/compare/compare.go:57-69 | hence always with more than 2048 tokens or beyond 64 levels, and never with fewer tokens within them |
| Profiles.VisitIsTokens | internal/compare/compare.go:57-99 | the walk visits exactly the paths and types of the value, at their depths |
| Profiles.TokenSplits | internal/compare/compare.go:41-46 | cutting a token at its last colon recovers its path, whatever the path holds |
| Profiles.FieldsArePaths | internal/compare/compare.go:41-51 | the fields of a complete profile are exactly the value's paths |
| Profiles.CompleteFields | internal/compare/compare.go:24-55 | a profile that was not cut off lists exactly the paths of the value, in order |
| Profiles.AlikeProfiles | internal/compare/compare.go:24-55 | profiles of values of the same shape that were not cut off are equal |
| Profiles.AlikeTokens | internal/compare/compare.go:57-99 | values of the same shape have the same tokens, whatever the order and number of their array elements |
| Profiles.RearrangedAlike | internal/compare/compare.go:84-90 | reordering or repeating array elements keeps the shape |
| Places.ProfileExact | internal/compare/compare.go:24-99 | a profile that was not cut off has exactly one token for every spelled way to a part of the value and the type that stands there, and these ways as fields |
| Places.ProfileBounds | internal/compare/compare.go:57-69 | never more than 2048 tokens, none that stands nowhere; not cut off only within 64 levels, and cut off only beyond them or with 2048 tokens |
| Fields.MatchesNormalized | internal/compare/compare.go:424-443 | comparing without building the normalised name, and rejecting early, agrees with comparing the normalised name, for any lower-casing that is the usual one on ASCII |
| Fields.FindLocal | internal/compare/compare.go:374-406 | an object's own keys: exact spellings decide if there are any, disagreement is ambiguous |
| Fields.FindScalar | internal/compare/compare.go:372-418 | the search returns the answer of the first object, in sorted-key preorder, that has a matching scalar key of its own |
| Fields.OneAnswer | internal/compare/compare.go:372-418 | there is only one such answer, so the order in which keys are enumerated cannot matter |
| Fields.FoundMeans | internal/compare/compare.go:271-281 | a found value is that of a matching scalar in the first such object, spelled exactly if any is, and shared by all its rivals there |
| Places.AnswerHasPlace | internal/compare/compare.go:372-418 | a field is missing exactly when no place in the value holds a scalar member of that name up to case and separators, and a found one stands at some place with the value reported |
| Places.NamesNormalize | internal/compare/compare.go:231-241 | which characters of a name vanish and what becomes of the others |
| Benchmark.ClassifyRow | cmd/authbench/main.go:258-288 | the label and undecided flag of a row from a result |
| Benchmark.RowMeans | cmd/authbench/main.go:258-288 | a row is undecided by the last assessment of its actor, or without one by the first execution; its label follows from the wanted finding, the violation and that |
| Benchmark.Summarize | cmd/authbench/main.go:290-322 | the counters are the numbers of rows of each kind, precision and recall their shares |
| Benchmark.TotalsAddUp | cmd/authbench/main.go:258-322 | for any results: found plus missed is known, and the five classes exceed the total by exactly the undecided false positives |
| Benchmark.PartitionIff | cmd/authbench/main.go:258-322 | the five classes partition the rows exactly when no false positive is undecided |
| Benchmark.CountedOnceIff | cmd/authbench/main.go:258-322 | runs of a validated single-identity case never give a row counted twice exactly when the case cannot finish or be ready, or is no legitimate control judged by the status line under a deny condition that some body leaves open |
| Benchmark.Conservation | cmd/authbench/main.go:258-322 | over engine runs of single-identity cases other than those they always do, and recall is the share of found among found and missed |

## Left out

- Transport: HTTP, DNS, TLS, timeouts, body limits and address checks in the client; the executor is an arbitrary server that answers every request.
- Lexing: decoders work on tokens, so UTF-8 validity is a flag of the text and the 8192-byte limit on literals and the 1 MB limit on plans are not modelled.
- `url.Parse`, same-origin and field-path checks and tenant lookup are parameters of the model (`Server.Library`, and the URL test of a plan).
- Validation.Validate: the 8192-byte limits on literals, and the texts of URLs and principal fields, are not looked into.
- Setup.RunSetup: substitution inside JSON bodies is a parameter, because it splices escaped text into the bytes of a document.
- Dotted.CanBeOpenIff: with texts to look for in the raw body the condition is only necessary, because the bytes of a body are not modelled and whether they hold a text is a parameter.
- Dotted.ValueAtPath: cases of a character, and the rendering of a number as a float, are parameters.
- Engine.ConcludeAll: CORS and sensitive-data findings are not appended.
- Engine.ConcludeOne: credential status, write-verification label and execution index are not set.
- Engine.RunCase: sensitive-data and CORS findings, evidence text, messages, credential status labels and timestamps are not part of the result.
- Guard.Guard.Allow: the mutex is not modelled; the context is the phase and whether the run is live. Decoding a plan from its file is left out.
- Composition.GuardIsTransparent: the projection itself is made by the runner outside this repository; any plan that covers it is allowed for.
- Policy.CompileExpectations: the sensitive-data flag and the owner lookup of the loop are left out.
- Stores.SQLite.Pending: the order of rows is not modelled, because the database sorts instants as text; jobs are compared as a set.
- Stores.Lockstep: database operations succeed and documents and instants decode to what was encoded; locking is left out.
- Profiles.ProfileOf: the hash over the joined tokens and the overlap ratio between two profiles are left out.
- Fields.FindScalar: the rendering of numbers and case-insensitive equality are parameters; works on decoded values.
- Benchmark.Summarize: precision and recall are exact ratios, without floating-point rounding.
- Importers, scaffolding, coverage, discovery, reports, the command line and the HTTP interface.
