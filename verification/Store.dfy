/**
  The client's store: one session's projection, its retained events, the
  continuity watermark, and the recorded hole in the live stream.
 */
module Store {
  import opened Events
  import opened Projection
  import opened Retention
  import opened Folds

  /** The half-open range `(after, through]` of sequences never received. */
  datatype Gap = Gap(session: SessionId, after: nat, through: nat)

  datatype Connection = Disconnected | Connecting | Connected

  datatype State = State(
    connection: Connection,
    attaching: Option<SessionId>,
    confirmed: bool,
    session: Option<SessionId>,
    projection: Projection,
    events: seq<Event>,
    lastSequence: nat,
    gap: Option<Gap>,
    error: Option<string>,
    queueError: Option<string>)

  datatype PendingApproval = PendingApproval(approvalId: string, text: string)

  datatype Snapshot =
    | Compacted(activeRuns: seq<RunId>, approvals: seq<PendingApproval>, prompts: seq<string>, through: nat)
    | EventRange(events: seq<Event>, through: nat)
    | UnknownSnapshot

  datatype Frame =
    | EventFrame(session: Option<SessionId>, event: Event)
    | HistoryFrame(owner: SessionId, through: nat, events: seq<Event>)
    | CatchupFrame(owner: SessionId, snapshot: Snapshot)
    | DisconnectedFrame
    | UnscopedFrame

  datatype Action =
    | ConnectFailed
    | ConnectStarted
    | ConnectSucceeded
    | AttachStarted(session: SessionId)
    | AttachFailed(session: SessionId)
    | SessionSelected(session: SessionId)
    | NewSession
    | SessionReattached(session: SessionId)
    | HistoryIncomplete(session: SessionId, through: nat)
    | RunSubmitted(session: SessionId, run: Option<RunId>, objective: string)
    | CommandFailed(message: Option<string>)
    | QueueFailed(detail: string)
    | QueueAccepted
    | GapRepaired(session: SessionId, through: nat)
    | FrameArrived(frame: Frame)

  const INITIAL_STATE := State(Disconnected, None, false, None, EMPTY_PROJECTION, [], 0, None, None, None)

  function Max(a: nat, b: nat): nat { if a < b then b else a }
  function Min(a: nat, b: nat): nat { if a < b then a else b }

  function Reset(st: State, session: Option<SessionId>): State {
    st.(attaching := None, confirmed := true, session := session, projection := EMPTY_PROJECTION,
        events := [], lastSequence := 0, gap := None, queueError := None)
  }

  function LastOf(events: seq<Event>): nat {
    if events == [] then 0 else events[|events| - 1].sequence
  }

  /** Replay `events` from nothing, replacing the whole projection. */
  function Rebuild(st: State, events: seq<Event>): State {
    st.(projection := Replayed(events), events := events, lastSequence := LastOf(events))
  }

  /** The gap after a live event: a jump opens one, an unrepaired one keeps its lower bound. */
  function NextGap(st: State, e: Event): Option<Gap> {
    if st.session.Some? && st.lastSequence > 0 && e.sequence > st.lastSequence + 1 then
      Some(Gap(st.session.value,
               if st.gap.Some? then Min(st.gap.value.after, st.lastSequence) else st.lastSequence,
               e.sequence - 1))
    else st.gap
  }

  function MergeDurable(st: State, e: Event): State {
    if e.sequence > st.lastSequence then
      st.(projection := Apply(st.projection, e), events := st.events + [e],
          lastSequence := e.sequence, gap := NextGap(st, e))
    else if Retains(st.events, e.sequence) then st
    else Rebuild(st, Merged(st.events, [e]))
  }

  function MergeHistory(st: State, through: nat, events: seq<Event>): State {
    var rebuilt := Rebuild(st, Merged(st.events, events));
    rebuilt.(lastSequence := Max(rebuilt.lastSequence, through))
  }

  function SnapshotCards(approvals: seq<PendingApproval>): seq<Item> {
    seq(|approvals|, k requires 0 <= k < |approvals| =>
      ApprovalItem(FromSnapshot, approvals[k].approvalId, approvals[k].text, ""))
  }

  function ApplySnapshot(st: State, session: SessionId, snapshot: Snapshot): State {
    match snapshot
    case Compacted(runs, approvals, prompts, through) =>
      st.(confirmed := true, session := Some(session),
          projection := Projection(
            st.projection.surface.(
              activeRun := if runs == [] then None else Some(runs[|runs| - 1]),
              isRunning := runs != [],
              runState := None,
              activity := if runs == [] then Idle else Thinking,
              pendingPrompts := prompts),
            Filter(st.projection.transcript, (item: Item) => !item.ApprovalItem?) + SnapshotCards(approvals)),
          lastSequence := Max(st.lastSequence, through))
    case EventRange(_, _) => st.(session := Some(session))
    case UnknownSnapshot => st.(session := Some(session))
  }

  /** The surface with nothing left to address: no run, no lifecycle, no activity. */
  function Silenced(p: Projection): Projection {
    p.(surface := p.surface.(activeRun := None, isRunning := false, runState := None, activity := Idle))
  }

  function Foreign(st: State, owner: SessionId): bool {
    st.session.Some? && st.session.value != owner
  }

  function Adopt(st: State, owner: SessionId): State {
    if st.session == Some(owner) then st else Reset(st, Some(owner))
  }

  function ApplyFrame(st: State, frame: Frame): State {
    match frame
    case DisconnectedFrame =>
      var quiet := Silenced(st.projection);
      st.(connection := Disconnected, attaching := None, confirmed := false, queueError := None,
          projection := quiet.(surface := quiet.surface.(pendingPrompts := [])))
    case CatchupFrame(owner, snapshot) =>
      if Foreign(st, owner) then st else ApplySnapshot(Adopt(st, owner), owner, snapshot)
    case HistoryFrame(owner, through, events) =>
      if Foreign(st, owner) then st else MergeHistory(Adopt(st, owner), through, events)
    case EventFrame(session, event) =>
      if session.None? then MergeDurable(st, event)
      else if Foreign(st, session.value) then st
      else if st.session.None? then MergeDurable(Reset(st, session), event)
      else MergeDurable(st.(confirmed := true), event)
    case UnscopedFrame => st
  }

  predicate RunWasObserved(st: State, run: RunId) {
    run in st.projection.surface.objectivesByRun
    || exists k :: 0 <= k < |st.events| && st.events[k].body.RunCompleted? && st.events[k].body.run == run
  }

  function Submitted(st: State, session: SessionId, run: Option<RunId>, objective: string): State {
    var base := Adopt(st, session);
    var ready := base.(attaching := None, confirmed := true, error := None);
    if run.Some? && RunWasObserved(base, run.value) then ready
    else ready.(projection := ready.projection.(surface := ready.projection.surface.(
                  activeRun := run, isRunning := true, activity := Thinking,
                  activeObjective := Some(objective), usage := None)))
  }

  /** Clear only a gap the repair covered: a newer, wider one may have opened meanwhile. */
  function ClearGap(st: State, session: SessionId, through: nat): State {
    if st.gap.Some? && st.gap.value.session == session && st.gap.value.through <= through
    then st.(gap := None) else st
  }

  function Reduce(st: State, action: Action): State {
    match action
    case ConnectFailed =>
      st.(connection := Disconnected, attaching := None, confirmed := false, projection := Silenced(st.projection))
    case ConnectStarted => st.(connection := Connecting, attaching := None, confirmed := false)
    case ConnectSucceeded => st.(connection := Connected)
    case AttachStarted(session) => st.(attaching := Some(session))
    case AttachFailed(session) => if st.attaching == Some(session) then st.(attaching := None) else st
    case SessionSelected(session) => Reset(st, Some(session))
    case NewSession => Reset(st, None).(confirmed := false, error := None)
    case SessionReattached(session) =>
      if st.session == Some(session) then st.(attaching := None, confirmed := true) else Reset(st, Some(session))
    case HistoryIncomplete(session, through) =>
      if st.session != Some(session) || through == 0 then st
      else st.(gap := Some(Gap(session, 0,
             if st.gap.Some? && st.gap.value.session == session then Max(st.gap.value.through, through) else through)))
    case RunSubmitted(session, run, objective) => Submitted(st, session, run, objective)
    case CommandFailed(message) => st.(error := message)
    case QueueFailed(detail) => st.(queueError := Some(detail))
    case QueueAccepted => st.(queueError := None)
    case GapRepaired(session, through) => ClearGap(st, session, through)
    case FrameArrived(frame) => ApplyFrame(st, frame)
  }

  function Run(st: State, actions: seq<Action>): State {
    FoldLeft(Reduce, st, actions)
  }

  lemma RunConcat(st: State, a: seq<Action>, b: seq<Action>)
    ensures Run(st, a + b) == Run(Run(st, a), b)
  {
    FoldLeftConcat(Reduce, st, a, b);
  }

  // ----- ordered retention

  /** Retained events are strictly increasing and none lies above the watermark. */
  predicate Ordered(st: State) {
    Increasing(st.events) && (forall k :: 0 <= k < |st.events| ==> st.events[k].sequence <= st.lastSequence)
  }

  lemma RebuildOrdered(st: State, current: seq<Event>, incoming: seq<Event>)
    ensures Ordered(Rebuild(st, Merged(current, incoming)))
  {
    MergedOrders(current, incoming);
  }

  lemma MergeDurableOrdered(st: State, e: Event)
    requires Ordered(st)
    ensures Ordered(MergeDurable(st, e))
  {
    hide Apply, Fold;
    if e.sequence > st.lastSequence {
      IncreasingAppend(st.events, e);
    } else {
      RebuildOrdered(st, st.events, [e]);
    }
  }

  lemma FrameOrdered(st: State, frame: Frame)
    requires Ordered(st)
    ensures Ordered(ApplyFrame(st, frame))
  {
    hide MergeDurable;
    match frame {
      case HistoryFrame(owner, through, events) =>
        RebuildOrdered(Adopt(st, owner), Adopt(st, owner).events, events);
      case EventFrame(session, event) =>
        MergeDurableOrdered(st, event);
        MergeDurableOrdered(st.(confirmed := true), event);
        MergeDurableOrdered(Reset(st, session), event);
      case _ =>
    }
  }

  /** Every state reachable by any actions whatever keeps its events ordered. */
  lemma {:induction false} ReachableOrdered(actions: seq<Action>)
    ensures Ordered(Run(INITIAL_STATE, actions))
  {
    hide ApplyFrame;
    if actions != [] {
      var n := |actions| - 1;
      ReachableOrdered(actions[..n]);
      if actions[n].FrameArrived? {
        FrameOrdered(Run(INITIAL_STATE, actions[..n]), actions[n].frame);
      }
    }
  }

  /** The live path as the client runs it: append, else bisect, else merge and replay. */
  method MergeDurableEvent(st: State, e: Event) returns (r: State)
    requires Ordered(st)
    ensures r == MergeDurable(st, e) && Ordered(r)
  {
    MergeDurableOrdered(st, e);
    if e.sequence > st.lastSequence {
      var gap := st.gap;
      if st.session.Some? && st.lastSequence > 0 && e.sequence > st.lastSequence + 1 {
        var after := st.lastSequence;
        if gap.Some? && gap.value.after < after { after := gap.value.after; }
        gap := Some(Gap(st.session.value, after, e.sequence - 1));
      }
      return st.(projection := Apply(st.projection, e), events := st.events + [e],
                 lastSequence := e.sequence, gap := gap);
    }
    var known := RetainsSequence(st.events, e.sequence);
    if known {
      return st;
    }
    var merged := MergeEvents(st.events, [e]);
    r := Rebuild(st, merged);
  }
}
