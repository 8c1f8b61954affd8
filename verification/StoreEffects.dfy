/**
  What each action does to the store beyond folding events: connections, attachments,
  snapshots, launches, and the recorded gap.
 */
module StoreEffects {
  import opened Events
  import opened Projection
  import opened Retention
  import opened Store

  /** Nothing is left to address: no run, no lifecycle, no activity. */
  function Quieted(s: Surface): Surface {
    s.(activeRun := None, isRunning := false, runState := None, activity := Idle)
  }

  // ----- snapshots

  /**
    A compacted snapshot of the session shows its latest active run, its queue and its
    pending approvals in place of the earlier approval cards; the other rows, the
    retained events and the gap stay, and the watermark rises to it.
   */
  lemma CompactedSnapshotShows(st: State, owner: SessionId, snapshot: Snapshot)
    requires st.session == Some(owner) && snapshot.Compacted?
    ensures var r, runs, pending := Reduce(st, FrameArrived(CatchupFrame(owner, snapshot))), snapshot.activeRuns, snapshot.approvals;
            var s, q := st.projection.surface, r.projection;
            var others := Filter(st.projection.transcript, (item: Item) => !item.ApprovalItem?);
            && q.surface.activeRun == (if runs == [] then None else Some(runs[|runs| - 1]))
            && (q.surface.isRunning <==> runs != []) && q.surface.runState == None
            && q.surface.activity == (if runs == [] then Idle else Thinking)
            && q.surface.pendingPrompts == snapshot.prompts
            && q.surface.usage == s.usage && q.surface.activeObjective == s.activeObjective
            && q.surface.objectivesByRun == s.objectivesByRun
            && |q.transcript| == |others| + |pending| && others <= q.transcript
            && (forall k :: 0 <= k < |pending| ==>
                  q.transcript[|others| + k] == ApprovalItem(FromSnapshot, pending[k].approvalId, pending[k].text, ""))
            && r.lastSequence == (if st.lastSequence < snapshot.through then snapshot.through else st.lastSequence)
            && r == st.(confirmed := true, projection := q, lastSequence := r.lastSequence)
  {
    hide Filter;
  }

  /** A catch-up that is no compacted snapshot changes nothing of its session. */
  lemma OtherCatchupsShowNothing(st: State, owner: SessionId, snapshot: Snapshot)
    requires st.session == Some(owner) && !snapshot.Compacted?
    ensures Reduce(st, FrameArrived(CatchupFrame(owner, snapshot))) == st
  {
  }

  predicate Names(frame: Frame, owner: SessionId) {
    (frame.EventFrame? && frame.session == Some(owner)) || (frame.HistoryFrame? && frame.owner == owner)
    || (frame.CatchupFrame? && frame.owner == owner)
  }

  /** A frame of another session is ignored while a session is shown; with none shown its session is adopted, empty. */
  lemma FramesOfOtherSessions(st: State, owner: SessionId, frame: Frame)
    requires Names(frame, owner)
    ensures st.session.Some? && st.session != Some(owner) ==> Reduce(st, FrameArrived(frame)) == st
    ensures st.session.None? ==>
              Reduce(st, FrameArrived(frame)) == Reduce(Reduce(st, SessionSelected(owner)), FrameArrived(frame))
  {
    hide MergeHistory, Merged, Apply, Replayed, Filter, Retains;
  }

  // ----- connection and attachment

  /** A dropped connection leaves nothing to address, and keeps the transcript, the events and the gap. */
  lemma DisconnectKeepsTranscript(st: State)
    ensures var surface := Quieted(st.projection.surface).(pendingPrompts := []);
            Reduce(st, FrameArrived(DisconnectedFrame))
            == st.(connection := Disconnected, attaching := None, confirmed := false, queueError := None,
                   projection := st.projection.(surface := surface))
  {
  }

  lemma ConnectionActions(st: State)
    ensures Reduce(st, ConnectFailed)
         == st.(connection := Disconnected, attaching := None, confirmed := false,
                projection := st.projection.(surface := Quieted(st.projection.surface)))
    ensures Reduce(st, ConnectStarted) == st.(connection := Connecting, attaching := None, confirmed := false)
    ensures Reduce(st, ConnectSucceeded) == st.(connection := Connected)
  {
  }

  /** The session is empty: no rows, no events, no watermark, no gap, nothing running. */
  predicate Empty(st: State) {
    && st.projection.transcript == [] && st.events == [] && st.lastSequence == 0 && st.gap == None
    && !st.projection.surface.isRunning && st.projection.surface.activeRun == None && st.projection.surface.runState == None
    && st.projection.surface.pendingPrompts == [] && st.projection.surface.usage == None
    && st.projection.surface.activity == Idle && st.projection.surface.activeObjective == None
    && st.projection.surface.objectivesByRun == map[]
    && st.attaching == None && st.queueError == None
  }

  /** Selecting a session, or another one on re-attach, or a new chat starts empty; re-attaching the shown one keeps it. */
  lemma SelectionStartsEmpty(st: State, session: SessionId)
    ensures var r := Reduce(st, SessionSelected(session));
            Empty(r) && r.session == Some(session) && r.confirmed && r.connection == st.connection && r.error == st.error
    ensures st.session != Some(session) ==> Reduce(st, SessionReattached(session)) == Reduce(st, SessionSelected(session))
    ensures st.session == Some(session) ==> Reduce(st, SessionReattached(session)) == st.(attaching := None, confirmed := true)
    ensures var r := Reduce(st, NewSession);
            Empty(r) && r.session == None && !r.confirmed && r.error == None && r.connection == st.connection
  {
  }

  lemma AttachActions(st: State, session: SessionId)
    ensures Reduce(st, AttachStarted(session)) == st.(attaching := Some(session))
    ensures Reduce(st, AttachFailed(session)) == if st.attaching == Some(session) then st.(attaching := None) else st
  {
  }

  lemma NoticeActions(st: State, message: Option<string>, detail: string)
    ensures Reduce(st, CommandFailed(message)) == st.(error := message)
    ensures Reduce(st, QueueFailed(detail)) == st.(queueError := Some(detail))
    ensures Reduce(st, QueueAccepted) == st.(queueError := None)
    ensures Reduce(st, FrameArrived(UnscopedFrame)) == st
  {
  }

  // ----- a provisional launch

  /** The run's own events have arrived: it started, or it already ended. */
  predicate Observed(st: State, run: RunId) {
    run in st.projection.surface.objectivesByRun
    || exists e :: e in st.events && e.body.RunCompleted? && e.body.run == run
  }

  /** A launch shows its run at once, unless the run's own events came first; another session starts empty. */
  lemma LaunchShowsRun(st: State, session: SessionId, run: Option<RunId>, objective: string)
    ensures var base := if st.session == Some(session) then st else Reduce(st, SessionSelected(session));
            var r, s := Reduce(st, RunSubmitted(session, run, objective)), base.projection.surface;
            var seen := run.Some? && Observed(base, run.value);
            && r == base.(attaching := None, confirmed := true, error := None, projection := r.projection)
            && r.projection.transcript == base.projection.transcript
            && r.projection.surface
               == if seen then s
                  else s.(activeRun := run, isRunning := true, activity := Thinking, activeObjective := Some(objective), usage := None)
  {
    var base := if st.session == Some(session) then st else Reduce(st, SessionSelected(session));
    if run.Some? && (exists e :: e in base.events && e.body.RunCompleted? && e.body.run == run.value) {
      var e :| e in base.events && e.body.RunCompleted? && e.body.run == run.value;
      var k :| 0 <= k < |base.events| && base.events[k] == e;
    }
  }

  // ----- the recorded gap

  /** A live event of the session past the next one opens a gap of exactly the missing range, or widens the open one to it. */
  lemma JumpRecordsMissing(st: State, session: SessionId, e: Event)
    requires st.session == Some(session) && st.lastSequence > 0
    ensures var r := Reduce(st, FrameArrived(EventFrame(Some(session), e)));
            && (e.sequence <= st.lastSequence + 1 ==> r.gap == st.gap)
            && (e.sequence > st.lastSequence + 1 && st.gap.None? ==> r.gap == Some(Gap(session, st.lastSequence, e.sequence - 1)))
            && (e.sequence > st.lastSequence + 1 && st.gap.Some? ==>
                  r.gap.Some? && r.gap.value.session == session && r.gap.value.through == e.sequence - 1
                  && r.gap.value.after <= st.lastSequence && r.gap.value.after <= st.gap.value.after
                  && r.gap.value.after in {st.lastSequence, st.gap.value.after})
  {
    hide Apply, Replayed, Merged, Retains;
  }

  /** The first event of a session, and a history page, open no gap. */
  lemma PagesOpenNoGap(st: State, session: SessionId, through: nat, page: seq<Event>, e: Event)
    requires st.session == Some(session)
    ensures Reduce(st, FrameArrived(HistoryFrame(session, through, page))).gap == st.gap
    ensures st.lastSequence == 0 ==> Reduce(st, FrameArrived(EventFrame(Some(session), e))).gap == st.gap
  {
    hide Apply, Replayed, Merged, Retains;
  }

  /** A repair clears the gap exactly when it is the session's and reaches its end. */
  lemma RepairClearsExactly(st: State, session: SessionId, through: nat)
    ensures var r := Reduce(st, GapRepaired(session, through));
            && r == st.(gap := r.gap)
            && (st.gap.Some? && st.gap.value.session == session && st.gap.value.through <= through ==> r.gap.None?)
            && (!(st.gap.Some? && st.gap.value.session == session && st.gap.value.through <= through) ==> r == st)
  {
  }

  /** An attach whose history is unfinished records everything up to its watermark, and up to the open gap's end. */
  lemma UnfinishedHistoryWidens(st: State, session: SessionId, through: nat)
    ensures var r := Reduce(st, HistoryIncomplete(session, through));
            && (st.session != Some(session) || through == 0 ==> r == st)
            && (st.session == Some(session) && through > 0 ==>
                  && r == st.(gap := r.gap) && r.gap.Some? && r.gap.value.session == session && r.gap.value.after == 0
                  && r.gap.value.through >= through
                  && (st.gap.Some? && st.gap.value.session == session ==> r.gap.value.through >= st.gap.value.through)
                  && r.gap.value.through in {through} + (if st.gap.Some? && st.gap.value.session == session then {st.gap.value.through} else {}))
  {
  }

  /** Live events and pages of the shown session move only what they carry; a named event proves the attachment. */
  lemma EventsMoveOnlyTheSession(st: State, session: SessionId, e: Event, through: nat, page: seq<Event>)
    requires st.session == Some(session)
    ensures var r := Reduce(st, FrameArrived(EventFrame(Some(session), e)));
            r == st.(confirmed := true, projection := r.projection, events := r.events, lastSequence := r.lastSequence, gap := r.gap)
    ensures var r := Reduce(st, FrameArrived(EventFrame(None, e)));
            r == st.(projection := r.projection, events := r.events, lastSequence := r.lastSequence, gap := r.gap)
    ensures var r := Reduce(st, FrameArrived(HistoryFrame(session, through, page)));
            r == st.(projection := r.projection, events := r.events, lastSequence := r.lastSequence)
            && r.lastSequence >= through
  {
    hide Apply, Replayed, Merged, Retains;
  }
}
