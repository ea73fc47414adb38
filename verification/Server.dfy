/** The world outside the engine: an arbitrary server reached through an executor
    that records every request, and the text operations the model leaves abstract. */
module Server {
  import opened Basics
  import opened Json
  import opened Model
  import Dotted

  datatype Phase = SetupPhase | PreflightPhase | ResourcePhase | VerificationPhase | ResetPhase

  datatype Call = Call(phase: Phase, actor: Identity, request: Request)

  /** The server's next state, its response, and whether the run was cancelled meanwhile. */
  datatype Reply<+S> = Reply(next: S, execution: Execution, cancel: bool)

  /** One request as it was sent: the states around it, whether the run was live when it
      started, and whether it had been cancelled by the time the response was read. */
  datatype Event<+S> = Event(call: Call, before: S, after: S, execution: Execution, live: bool, cancelled: bool)

  datatype World<+S> = World(state: S, cancelled: bool, trace: seq<Event<S>>)

  /** A place in a run where a dotted path is read: when a response is recorded, when it is reported on,
      or when a setup step captures under a name. */
  datatype Occasion = Recording(id: string) | Reporting(id: string) | Capturing(step: nat, name: string)

  /** Pure text and document operations of other packages, taken as given, and how map iteration falls
      out on each occasion of a run. */
  datatype Library = Library(
    upper: string -> string,
    isUnsafe: string -> bool,
    sameOrigin: (string, string) -> bool,
    httpOrigin: string -> Option<string>,
    fieldOk: (string, string) -> bool,
    substituteBody: (Raw, map<string, string>) -> Option<Raw>,
    text: Dotted.Text,
    fieldValue: (Raw, string) -> Option<string>,
    order: Occasion -> Dotted.Order)

  datatype Platform<!S> = Platform(step: (S, Call) -> Reply<S>, library: Library)

  ghost function Send<S>(p: Platform<S>, w: World<S>, c: Call): (r: (World<S>, Execution)) {
    var reply := p.step(w.state, c);
    var event := Event(c, w.state, reply.next, reply.execution, !w.cancelled, w.cancelled || reply.cancel);
    (World(reply.next, w.cancelled || reply.cancel, w.trace + [event]), reply.execution)
  }

  class Executor<S> {
    const platform: Platform<S>
    var state: S
    var cancelled: bool
    ghost var trace: seq<Event<S>>

    constructor (platform: Platform<S>, state: S, cancelled: bool)
      ensures this.platform == platform && Snapshot() == World(state, cancelled, [])
    {
      this.platform, this.state, this.cancelled := platform, state, cancelled;
      trace := [];
    }

    ghost function Snapshot(): World<S>
      reads this
    {
      World(state, cancelled, trace)
    }

    method Execute(c: Call) returns (ex: Execution)
      modifies this
      ensures (Snapshot(), ex) == Send(platform, old(Snapshot()), c)
    {
      var reply := platform.step(state, c);
      trace := trace + [Event(c, state, reply.next, reply.execution, !cancelled, cancelled || reply.cancel)];
      state, cancelled := reply.next, cancelled || reply.cancel;
      ex := reply.execution;
    }
  }

  // ----- What every recorded run satisfies -----

  /** The event is the server's own answer to its request in the state before it. */
  ghost predicate AnswersRequest<S>(p: Platform<S>, e: Event<S>) {
    var reply := p.step(e.before, e.call);
    e.after == reply.next && e.execution == reply.execution && e.cancelled == (!e.live || reply.cancel)
  }

  ghost predicate Answered<S>(p: Platform<S>, events: seq<Event<S>>) {
    forall i :: 0 <= i < |events| ==> AnswersRequest(p, events[i])
  }

  /** Nothing happens to the server or the run between two requests. */
  ghost predicate Follows<S>(e: Event<S>, f: Event<S>) {
    f.before == e.after && f.live == !e.cancelled
  }

  ghost predicate Linked<S>(events: seq<Event<S>>) {
    forall i :: 0 < i < |events| ==> Follows(events[i - 1], events[i])
  }

  /** events lead from state a to state b with no change in between. */
  ghost predicate Leads<S>(events: seq<Event<S>>, a: S, b: S) {
    && Linked(events)
    && (events == [] ==> a == b)
    && (events != [] ==> events[0].before == a && events[|events| - 1].after == b)
  }
}
