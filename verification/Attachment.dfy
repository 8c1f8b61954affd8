/**
  The attachment protocol, on one connection: attach requests queue up, the frames of
  the session being attached are held back until the daemon answers, and the answer
  commits or discards them.
 */
module Attachment {
  import opened Events
  import opened Folds
  import opened Store

  datatype Request = Request(session: SessionId, preserve: bool)

  /** The request awaiting its answer, with the frames of its session held back. */
  datatype Pending = Pending(request: Request, frames: seq<Frame>)

  datatype Outcome = Outcome(request: Request, committed: bool)

  datatype Link = Link(
    store: State,
    pending: Option<Pending>,
    queue: seq<Request>,
    blank: bool,
    confirmed: Option<SessionId>,
    settled: seq<Outcome>)

  datatype Step =
    | Ask(request: Request)
    | Answer(accepted: bool)
    | Arrive(frame: Frame)
    | NewChat(launching: bool)

  const REFUSED: Option<string> := Some("attach refused")
  const BUSY: Option<string> := Some("finish or cancel the current run before starting a new chat")
  const INCOMPLETE: Option<string> := Some("attached, but the complete history could not be restored yet")

  /** The session a transcript frame names, if any. */
  function SessionOf(frame: Frame): Option<SessionId> {
    match frame
    case EventFrame(session, _) => session
    case HistoryFrame(owner, _, _) => Some(owner)
    case CatchupFrame(owner, _) => Some(owner)
    case _ => None
  }

  predicate SessionKind(frame: Frame) { frame.EventFrame? || frame.HistoryFrame? || frame.CatchupFrame? }

  // ----- operations

  /** A new chat waits for its first run: frames of an older subscription cannot reopen it. */
  function Deliver(l: Link, frame: Frame): Link {
    if l.blank && SessionKind(frame) then l
    else
      var named := SessionOf(frame);
      l.(confirmed := if frame.DisconnectedFrame? then None
                      else if named.Some? && (l.store.session.None? || l.store.session == named) then named
                      else l.confirmed,
         store := Reduce(l.store, FrameArrived(frame)))
  }

  function DeliverAll(l: Link, frames: seq<Frame>): Link { FoldLeft(Deliver, l, frames) }

  function Start(l: Link, request: Request): Link {
    l.(pending := Some(Pending(request, [])), store := Reduce(l.store, AttachStarted(request.session)))
  }

  function Selection(request: Request): Action {
    if request.preserve then SessionReattached(request.session) else SessionSelected(request.session)
  }

  function Commit(l: Link, p: Pending): Link {
    DeliverAll(l.(pending := None, blank := false, confirmed := Some(p.request.session),
                  store := Reduce(l.store, Selection(p.request))),
               p.frames)
  }

  /** A held-back catch-up or history frame is proof of acceptance; its watermark is the range to retry. */
  function AcceptedThrough(frames: seq<Frame>): Option<nat> {
    if frames == [] then None
    else
      var rest, last := AcceptedThrough(frames[..|frames| - 1]), frames[|frames| - 1];
      var candidate :=
        if last.HistoryFrame? then Some(last.through)
        else if last.CatchupFrame? && !last.snapshot.UnknownSnapshot? then Some(last.snapshot.through)
        else None;
      if candidate.None? then rest
      else if rest.None? then candidate
      else Some(Max(rest.value, candidate.value))
  }

  function Discard(l: Link, p: Pending): Link {
    l.(pending := None,
       store := Reduce(Reduce(l.store, AttachFailed(p.request.session)), CommandFailed(REFUSED)))
  }

  /** Settle the pending request: accepted, accepted with its history unfinished, or refused. */
  function SettlePending(l: Link, p: Pending, accepted: bool): Link {
    if accepted then Commit(l, p).(settled := l.settled + [Outcome(p.request, true)])
    else
      var through := AcceptedThrough(p.frames);
      if through.Some? then
        var committed := Commit(l, p);
        committed.(store := Reduce(Reduce(committed.store, HistoryIncomplete(p.request.session, through.value)),
                                   CommandFailed(INCOMPLETE)),
                   settled := l.settled + [Outcome(p.request, true)])
      else Discard(l, p).(settled := l.settled + [Outcome(p.request, false)])
  }

  /** The next queued request starts once the previous one settled. */
  function StartNext(l: Link): Link {
    if l.pending.None? && l.queue != [] then Start(l.(queue := l.queue[1..]), l.queue[0]) else l
  }

  function Route(l: Link, frame: Frame): Link {
    if l.pending.Some? && SessionOf(frame) == Some(l.pending.value.request.session) then
      l.(pending := Some(l.pending.value.(frames := l.pending.value.frames + [frame])))
    else if l.pending.Some? && frame.EventFrame? && frame.session.None? then l
    else Deliver(l, frame)
  }

  /** A new chat; `launching` tells whether a first run is being launched. */
  function StartNewChat(l: Link, launching: bool): Link {
    if launching || l.pending.Some? || l.store.projection.surface.isRunning then l.(store := Reduce(l.store, CommandFailed(BUSY)))
    else l.(blank := true, confirmed := None, store := Reduce(l.store, NewSession))
  }

  function LinkStep(l: Link, step: Step): Link {
    match step
    case Ask(request) => if l.pending.None? then Start(l, request) else l.(queue := l.queue + [request])
    case Answer(accepted) => if l.pending.None? then l else StartNext(SettlePending(l, l.pending.value, accepted))
    case Arrive(frame) => Route(l, frame)
    case NewChat(launching) => StartNewChat(l, launching)
  }

  function RunLink(l: Link, steps: seq<Step>): Link { FoldLeft(LinkStep, l, steps) }

  function Opened(store: State): Link { Link(store, None, [], false, None, []) }

  // ----- request order

  function Requests(steps: seq<Step>): seq<Request> {
    if steps == [] then []
    else
      var rest := Requests(steps[..|steps| - 1]);
      if steps[|steps| - 1].Ask? then rest + [steps[|steps| - 1].request] else rest
  }

  function SettledRequests(settled: seq<Outcome>): (r: seq<Request>)
    ensures |r| == |settled| && forall k :: 0 <= k < |r| ==> r[k] == settled[k].request
  {
    seq(|settled|, k requires 0 <= k < |settled| => settled[k].request)
  }

  function InHand(l: Link): seq<Request> {
    (if l.pending.Some? then [l.pending.value.request] else []) + l.queue
  }

  lemma {:induction false} DeliverAllKeeps(l: Link, frames: seq<Frame>)
    ensures var r := DeliverAll(l, frames);
            r.pending == l.pending && r.queue == l.queue && r.settled == l.settled && r.blank == l.blank
  {
    hide Reduce;
    if frames != [] {
      DeliverAllKeeps(l, frames[..|frames| - 1]);
    }
  }

  lemma CommitKeeps(l: Link, p: Pending)
    ensures var r := Commit(l, p);
            r.pending == None && r.queue == l.queue && r.settled == l.settled && !r.blank
  {
    hide Reduce;
    DeliverAllKeeps(l.(pending := None, blank := false, confirmed := Some(p.request.session),
                       store := Reduce(l.store, Selection(p.request))), p.frames);
  }

  lemma SettleMoves(l: Link, p: Pending, accepted: bool)
    ensures var r := SettlePending(l, p, accepted);
            && r.pending == None && r.queue == l.queue
            && exists committed: bool :: r.settled == l.settled + [Outcome(p.request, committed)]
  {
    hide Reduce, Commit;
    CommitKeeps(l, p);
  }

  /** Requests are settled one at a time, each once, in the order they were made. */
  ghost predicate InOrder(l: Link, requests: seq<Request>) {
    && SettledRequests(l.settled) + InHand(l) == requests
    && (l.pending.None? ==> l.queue == [])
  }

  lemma NextInOrder(l: Link, requests: seq<Request>, step: Step)
    requires InOrder(l, requests)
    ensures InOrder(LinkStep(l, step), if step.Ask? then requests + [step.request] else requests)
  {
    hide Reduce, SettlePending;
    match step {
      case Ask(request) =>
      case Answer(accepted) =>
        if l.pending.Some? {
          var p := l.pending.value;
          SettleMoves(l, p, accepted);
          var r := SettlePending(l, p, accepted);
          assert SettledRequests(r.settled) == SettledRequests(l.settled) + [p.request];
          if r.queue != [] { assert [r.queue[0]] + r.queue[1..] == r.queue; }
        }
      case Arrive(frame) =>
      case NewChat(_) =>
    }
  }

  lemma {:induction false} RunInOrder(store: State, steps: seq<Step>)
    ensures InOrder(RunLink(Opened(store), steps), Requests(steps))
  {
    hide LinkStep;
    if steps != [] {
      var n := |steps| - 1;
      RunInOrder(store, steps[..n]);
      NextInOrder(RunLink(Opened(store), steps[..n]), Requests(steps[..n]), steps[n]);
    }
  }

  /** Over every run, the settled requests are the first ones asked, in the order asked. */
  lemma AttachesSettleInRequestOrder(store: State, steps: seq<Step>)
    ensures SettledRequests(RunLink(Opened(store), steps).settled) <= Requests(steps)
  {
    RunInOrder(store, steps);
  }
}
