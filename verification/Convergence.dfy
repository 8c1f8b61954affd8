/**
  Convergence: whatever order, duplication or batching delivers a session's
  events, the projection is the replay of the distinct events in sequence order.
  The append path, the duplicate check and the merge-and-replay path agree.
 */
module Convergence {
  import opened Events
  import opened Projection
  import opened Retention
  import opened Store
  import opened Folds

  /** Equal sequences name the same durable event. */
  predicate Consistent(events: seq<Event>) {
    forall i, j :: 0 <= i < |events| && 0 <= j < |events| && events[i].sequence == events[j].sequence
      ==> events[i] == events[j]
  }

  /**
    The actions of an undisturbed attachment to `session`: everything except a
    reset to another session, a dropped connection, a provisional launch and a
    compacted snapshot of this session, which overwrite parts of the projection.
   */
  predicate Steady(a: Action, session: SessionId) {
    match a
    case ConnectFailed => false
    case NewSession => false
    case SessionSelected(_) => false
    case RunSubmitted(_, _, _) => false
    case SessionReattached(other) => other == session
    case FrameArrived(frame) =>
      !frame.DisconnectedFrame?
      && (frame.CatchupFrame? ==> frame.owner != session || !frame.snapshot.Compacted?)
    case _ => true
  }

  predicate AllSteady(actions: seq<Action>, session: SessionId) {
    forall k :: 0 <= k < |actions| ==> Steady(actions[k], session)
  }

  /** The events an action delivers to `session`. */
  function Delivers(a: Action, session: SessionId): seq<Event> {
    if !a.FrameArrived? then []
    else match a.frame
      case EventFrame(owner, event) => if owner.None? || owner.value == session then [event] else []
      case HistoryFrame(owner, _, events) => if owner == session then events else []
      case _ => []
  }

  function Delivered(actions: seq<Action>, session: SessionId): seq<Event> {
    if actions == [] then []
    else Delivered(actions[..|actions| - 1], session) + Delivers(actions[|actions| - 1], session)
  }

  /** The distinct delivered events, in sequence order. */
  function Distinct(events: seq<Event>): seq<Event> { Merged([], events) }

  /** The session holds the distinct delivered events, in order. */
  ghost predicate Retained(st: State, session: SessionId, delivered: seq<Event>) {
    && st.session == Some(session)
    && Ordered(st)
    && AsMap(st.events) == AsMap(delivered)
  }

  ghost predicate Converged(st: State, session: SessionId, delivered: seq<Event>) {
    Retained(st, session, delivered) && st.projection == Replayed(st.events)
  }

  lemma MapUnionUpdate<K, V>(m: map<K, V>, n: map<K, V>, k: K, v: V)
    ensures (m + n)[k := v] == m + n[k := v]
  {
  }

  lemma {:induction false} AsMapConcat(a: seq<Event>, b: seq<Event>)
    ensures AsMap(a + b) == AsMap(a) + AsMap(b)
  {
    hide AsMap;
    if b == [] {
      assert a + b == a;
      assert AsMap(b) == map[] by { EmptyMap(); }
    } else {
      var n := |b| - 1;
      AsMapConcat(a, b[..n]);
      AsMapAppend(a + b[..n], b[n]);
      AsMapAppend(b[..n], b[n]);
      assert a + b == (a + b[..n]) + [b[n]] && b == b[..n] + [b[n]];
      MapUnionUpdate(AsMap(a), AsMap(b[..n]), b[n].sequence, b[n]);
    }
  }

  /** A consistent duplicate is the event already retained. */
  lemma DuplicateAbsorbed(delivered: seq<Event>, e: Event)
    requires Consistent(delivered + [e]) && e.sequence in AsMap(delivered)
    ensures AsMap(delivered + [e]) == AsMap(delivered)
  {
    AsMapAppend(delivered, e);
    AsMapSound(delivered, e.sequence);
    var k :| 0 <= k < |delivered| && delivered[k] == AsMap(delivered)[e.sequence];
    assert (delivered + [e])[k] == delivered[k] && (delivered + [e])[|delivered|] == e;
  }

  lemma ReplayedAppend(events: seq<Event>, e: Event)
    ensures Replayed(events + [e]) == Apply(Replayed(events), e)
  {
    hide Apply;
    assert (events + [e])[..|events|] == events;
  }

  lemma MergeDurableRetains(st: State, session: SessionId, delivered: seq<Event>, e: Event)
    requires Retained(st, session, delivered) && Consistent(delivered + [e])
    ensures Retained(MergeDurable(st, e), session, delivered + [e])
  {
    hide Apply, AsMap, Consistent, Ordered, Retains, Merged, NextGap, Replayed;
    MergeDurableOrdered(st, e);
    AsMapAppend(delivered, e);
    AsMapAppend(st.events, e);
    if e.sequence <= st.lastSequence {
      if Retains(st.events, e.sequence) {
        RetainsIsDomain(st.events, e.sequence);
        DuplicateAbsorbed(delivered, e);
      } else {
        MergedOrders(st.events, [e]);
      }
    }
  }

  lemma MergeDurableConverges(st: State, session: SessionId, delivered: seq<Event>, e: Event)
    requires Converged(st, session, delivered) && Consistent(delivered + [e])
    ensures Converged(MergeDurable(st, e), session, delivered + [e])
  {
    hide Apply, AsMap, Consistent, Ordered, Retains, Merged, NextGap, Replayed, Retained;
    MergeDurableRetains(st, session, delivered, e);
    if e.sequence > st.lastSequence { ReplayedAppend(st.events, e); }
  }

  /** A page replays everything retained, whatever was on screen. */
  lemma MergeHistoryConverges(st: State, session: SessionId, delivered: seq<Event>, through: nat, events: seq<Event>)
    requires Retained(st, session, delivered)
    ensures Converged(MergeHistory(st, through, events), session, delivered + events)
  {
    MergedOrders(st.events, events);
    RebuildOrdered(st, st.events, events);
    AsMapConcat(st.events, events);
    AsMapConcat(delivered, events);
  }

  lemma EventFrameMerges(st: State, session: SessionId, delivered: seq<Event>, owner: Option<SessionId>, e: Event)
    requires Retained(st, session, delivered) && (owner.None? || owner.value == session)
    ensures ApplyFrame(st, EventFrame(owner, e)) == MergeDurable(if owner.None? then st else st.(confirmed := true), e)
  {
    hide MergeDurable, Ordered, AsMap;
  }

  lemma ConfirmedToo(st: State, session: SessionId, delivered: seq<Event>)
    requires Retained(st, session, delivered)
    ensures Retained(st.(confirmed := true), session, delivered)
    ensures Converged(st, session, delivered) ==> Converged(st.(confirmed := true), session, delivered)
  {
    hide AsMap, Replayed, Increasing;
  }

  lemma StepConverges(st: State, session: SessionId, delivered: seq<Event>, a: Action)
    requires Converged(st, session, delivered) && Steady(a, session)
    requires Consistent(delivered + Delivers(a, session))
    ensures Converged(Reduce(st, a), session, delivered + Delivers(a, session))
  {
    hide Retained, Steady, Consistent, MergeHistory, MergeDurable, Replayed;
    if a.FrameArrived? && a.frame.EventFrame? && Delivers(a, session) != [] {
      EventFrameMerges(st, session, delivered, a.frame.session, a.frame.event);
      ConfirmedToo(st, session, delivered);
      MergeDurableConverges(st, session, delivered, a.frame.event);
      MergeDurableConverges(st.(confirmed := true), session, delivered, a.frame.event);
    } else if a.FrameArrived? && a.frame.HistoryFrame? && a.frame.owner == session {
      HistoryFrameMerges(st, session, delivered, a.frame.through, a.frame.events);
      MergeHistoryConverges(st, session, delivered, a.frame.through, a.frame.events);
    } else {
      assert delivered + [] == delivered;
      SteadyKeeps(st, session, delivered, a);
    }
  }

  lemma HistoryFrameMerges(st: State, session: SessionId, delivered: seq<Event>, through: nat, events: seq<Event>)
    requires Retained(st, session, delivered)
    ensures ApplyFrame(st, HistoryFrame(session, through, events)) == MergeHistory(st, through, events)
  {
    hide MergeHistory;
  }

  lemma SteadyKeeps(st: State, session: SessionId, delivered: seq<Event>, a: Action)
    requires Converged(st, session, delivered) && Steady(a, session) && Delivers(a, session) == []
    requires a.FrameArrived? && a.frame.HistoryFrame? ==> a.frame.owner != session
    ensures Converged(Reduce(st, a), session, delivered)
  {
    hide MergeHistory, MergeDurable, Increasing, Replayed, AsMap;
    var r := Reduce(st, a);
    assert r.session == st.session && r.events == st.events && r.lastSequence == st.lastSequence && r.projection == st.projection;
  }

  // ----- disturbed sessions: the events are kept, and a page heals the projection

  /** An action that leaves the session where it is, whatever it does to the projection. */
  predicate Stays(a: Action, session: SessionId) {
    match a
    case NewSession => false
    case SessionSelected(_) => false
    case SessionReattached(other) => other == session
    case RunSubmitted(owner, _, _) => owner == session
    case _ => true
  }

  predicate AllStay(actions: seq<Action>, session: SessionId) {
    forall k :: 0 <= k < |actions| ==> Stays(actions[k], session)
  }

  /** Without a delivery, such an action moves neither the events nor the order. */
  lemma DisturbedKeeps(st: State, session: SessionId, delivered: seq<Event>, a: Action)
    requires Retained(st, session, delivered) && Stays(a, session) && Delivers(a, session) == []
    requires a.FrameArrived? && a.frame.HistoryFrame? ==> a.frame.owner != session
    ensures Retained(Reduce(st, a), session, delivered)
  {
    hide MergeHistory, MergeDurable, Increasing, Replayed, AsMap, Filter, SnapshotCards, RunWasObserved;
    var r := Reduce(st, a);
    assert r.session == st.session && r.events == st.events && r.lastSequence >= st.lastSequence;
  }

  lemma StepRetains(st: State, session: SessionId, delivered: seq<Event>, a: Action)
    requires Retained(st, session, delivered) && Stays(a, session)
    requires Consistent(delivered + Delivers(a, session))
    ensures Retained(Reduce(st, a), session, delivered + Delivers(a, session))
  {
    hide Retained, Stays, Consistent, MergeHistory, MergeDurable, Replayed;
    if a.FrameArrived? && a.frame.EventFrame? && Delivers(a, session) != [] {
      EventFrameMerges(st, session, delivered, a.frame.session, a.frame.event);
      ConfirmedToo(st, session, delivered);
      MergeDurableRetains(st, session, delivered, a.frame.event);
      MergeDurableRetains(st.(confirmed := true), session, delivered, a.frame.event);
    } else if a.FrameArrived? && a.frame.HistoryFrame? && a.frame.owner == session {
      HistoryFrameMerges(st, session, delivered, a.frame.through, a.frame.events);
      MergeHistoryConverges(st, session, delivered, a.frame.through, a.frame.events);
    } else {
      assert delivered + [] == delivered;
      DisturbedKeeps(st, session, delivered, a);
    }
  }

  lemma {:induction false} RunRetains(st: State, session: SessionId, delivered: seq<Event>, actions: seq<Action>)
    requires Retained(st, session, delivered) && AllStay(actions, session)
    requires Consistent(delivered + Delivered(actions, session))
    ensures Retained(Run(st, actions), session, delivered + Delivered(actions, session))
  {
    hide Retained, Stays, Consistent, Reduce, Delivers;
    if actions == [] {
      assert delivered + [] == delivered;
    } else {
      var n := |actions| - 1;
      var before, more := Delivered(actions[..n], session), Delivers(actions[n], session);
      assert delivered + (before + more) == (delivered + before) + more;
      ConsistentPrefix(delivered + before, more);
      RunRetains(st, session, delivered, actions[..n]);
      StepRetains(Run(st, actions[..n]), session, delivered + before, actions[n]);
    }
  }

  lemma ConsistentPrefix(a: seq<Event>, b: seq<Event>)
    requires Consistent(a + b)
    ensures Consistent(a)
  {
    forall i, j | 0 <= i < |a| && 0 <= j < |a| && a[i].sequence == a[j].sequence ensures a[i] == a[j] {
      assert (a + b)[i] == a[i] && (a + b)[j] == a[j];
    }
  }

  lemma {:induction false} RunConverges(st: State, session: SessionId, delivered: seq<Event>, actions: seq<Action>)
    requires Converged(st, session, delivered) && AllSteady(actions, session)
    requires Consistent(delivered + Delivered(actions, session))
    ensures Converged(Run(st, actions), session, delivered + Delivered(actions, session))
  {
    hide Converged, Steady, Consistent, Reduce, Delivers;
    if actions == [] {
      assert delivered + [] == delivered;
    } else {
      var n := |actions| - 1;
      var before, more := Delivered(actions[..n], session), Delivers(actions[n], session);
      assert delivered + (before + more) == (delivered + before) + more;
      ConsistentPrefix(delivered + before, more);
      RunConverges(st, session, delivered, actions[..n]);
      StepConverges(Run(st, actions[..n]), session, delivered + before, actions[n]);
    }
  }

  lemma ResetConverged(st: State, session: SessionId)
    ensures Converged(Reset(st, Some(session)), session, [])
  {
  }

  /** A converged session shows the replay of the distinct events delivered to it. */
  lemma ConvergedShows(st: State, session: SessionId, delivered: seq<Event>)
    requires Converged(st, session, delivered)
    ensures st.events == Distinct(delivered) && st.projection == Replayed(Distinct(delivered))
  {
    MergedOrders([], delivered);
    assert [] + delivered == delivered;
    IncreasingUnique(st.events, Distinct(delivered));
  }

  /**
    From a reset, the retained events are the distinct delivered events in sequence
    order, and the projection is their replay.
   */
  lemma SessionConverges(st: State, session: SessionId, actions: seq<Action>)
    requires AllSteady(actions, session) && Consistent(Delivered(actions, session))
    ensures var r := Run(Reset(st, Some(session)), actions);
            r.events == Distinct(Delivered(actions, session))
            && r.projection == Replayed(Distinct(Delivered(actions, session)))
  {
    hide Converged, Reset, Replayed, Distinct;
    var all := Delivered(actions, session);
    ResetConverged(st, session);
    assert [] + all == all;
    RunConverges(Reset(st, Some(session)), session, [], actions);
    ConvergedShows(Run(Reset(st, Some(session)), actions), session, all);
  }

  lemma SameEventsSameMap(a: seq<Event>, b: seq<Event>)
    requires Consistent(a) && Consistent(b)
    requires forall e :: e in a <==> e in b
    ensures AsMap(a) == AsMap(b)
  {
    forall s | s in AsMap(a) ensures s in AsMap(b) && AsMap(a)[s] == AsMap(b)[s] {
      MapEntry(a, b, s);
    }
    forall s | s in AsMap(b) ensures s in AsMap(a) {
      MapEntry(b, a, s);
    }
  }

  lemma MapEntry(a: seq<Event>, b: seq<Event>, s: nat)
    requires Consistent(b) && s in AsMap(a)
    requires forall e :: e in a ==> e in b
    ensures s in AsMap(b) && AsMap(a)[s] == AsMap(b)[s]
  {
    AsMapSound(a, s);
    var i :| 0 <= i < |b| && b[i] == AsMap(a)[s];
    AsMapComplete(b, i);
    AsMapSound(b, s);
    var j :| 0 <= j < |b| && b[j] == AsMap(b)[s];
  }

  /** Two clients that were sent the same events, in any order, show the same session. */
  lemma ClientsAgree(st1: State, st2: State, session: SessionId, run1: seq<Action>, run2: seq<Action>)
    requires AllSteady(run1, session) && AllSteady(run2, session)
    requires Consistent(Delivered(run1, session)) && Consistent(Delivered(run2, session))
    requires forall e :: e in Delivered(run1, session) <==> e in Delivered(run2, session)
    ensures Run(Reset(st1, Some(session)), run1).events == Run(Reset(st2, Some(session)), run2).events
    ensures Run(Reset(st1, Some(session)), run1).projection == Run(Reset(st2, Some(session)), run2).projection
  {
    hide Delivered, Merged, AsMap, Reset, Run, Consistent;
    var all1, all2 := Delivered(run1, session), Delivered(run2, session);
    SessionConverges(st1, session, run1);
    SessionConverges(st2, session, run2);
    SameEventsSameMap(all1, all2);
    MergedOrders([], all1);
    MergedOrders([], all2);
    assert [] + all1 == all1 && [] + all2 == all2;
    IncreasingUnique(Distinct(all1), Distinct(all2));
  }

  /**
    A history page heals any disturbance: whatever a disconnect, a launch or a
    snapshot left on screen, the page restores the replay of what is retained.
   */
  lemma HistoryHeals(actions: seq<Action>, session: SessionId, through: nat, page: seq<Event>)
    requires Run(INITIAL_STATE, actions).session == Some(session)
    ensures var before := Run(INITIAL_STATE, actions);
            var after := Run(INITIAL_STATE, actions + [FrameArrived(HistoryFrame(session, through, page))]);
            && Ordered(after)
            && AsMap(after.events) == AsMap(before.events) + AsMap(page)
            && after.projection == Replayed(after.events)
  {
    hide Reduce, Ordered, AsMap, Merged, Replayed;
    var before := Run(INITIAL_STATE, actions);
    var history := FrameArrived(HistoryFrame(session, through, page));
    RunConcat(INITIAL_STATE, actions, [history]);
    ReachableOrdered(actions + [history]);
    MergedOrders(before.events, page);
    AsMapConcat(before.events, page);
    assert Run(before, [history]) == MergeHistory(before, through, page) by { HistoryStep(before, session, through, page); }
  }

  lemma HistoryStep(st: State, session: SessionId, through: nat, page: seq<Event>)
    requires st.session == Some(session)
    ensures Run(st, [FrameArrived(HistoryFrame(session, through, page))]) == MergeHistory(st, through, page)
  {
    hide MergeHistory;
    OneStep(Reduce, st, FrameArrived(HistoryFrame(session, through, page)));
  }

  lemma {:induction false} DeliveredConcat(a: seq<Action>, b: seq<Action>, session: SessionId)
    ensures Delivered(a + b, session) == Delivered(a, session) + Delivered(b, session)
  {
    hide Delivers;
    if b == [] {
      assert a + b == a;
    } else {
      var n := |b| - 1;
      assert (a + b)[..|a| + n] == a + b[..n];
      DeliveredConcat(a, b[..n], session);
      assert Delivered(a, session) + (Delivered(b[..n], session) + Delivers(b[n], session))
          == Delivered(a, session) + Delivered(b[..n], session) + Delivers(b[n], session);
    }
  }

  /** From a retained session, a page and an undisturbed run after it. */
  lemma PageThenSteady(st: State, session: SessionId, delivered: seq<Event>, through: nat, page: seq<Event>, after: seq<Action>)
    requires Retained(st, session, delivered) && AllSteady(after, session)
    requires Consistent(delivered + page + Delivered(after, session))
    ensures Converged(Run(Run(st, [FrameArrived(HistoryFrame(session, through, page))]), after), session,
                      delivered + page + Delivered(after, session))
  {
    hide Converged, Consistent, Steady, Reduce, Ordered, AsMap, MergeHistory;
    HistoryStep(st, session, through, page);
    MergeHistoryConverges(st, session, delivered, through, page);
    RunConverges(MergeHistory(st, through, page), session, delivered + page, after);
  }

  /**
    From a reset, over any run that stays in the session: disconnects, provisional
    launches and compacted snapshots may come before a history page, and everything
    steady after it.  What is shown is the replay of all distinct events delivered.
   */
  lemma DisturbedSessionConverges(st: State, session: SessionId, before: seq<Action>, through: nat, page: seq<Event>,
                                  after: seq<Action>)
    requires AllStay(before, session) && AllSteady(after, session)
    requires Consistent(Delivered(before, session) + page + Delivered(after, session))
    ensures var all := Delivered(before, session) + page + Delivered(after, session);
            var r := Run(Reset(st, Some(session)), before + [FrameArrived(HistoryFrame(session, through, page))] + after);
            r.events == Distinct(all) && r.projection == Replayed(Distinct(all))
  {
    hide Converged, Consistent, Steady, Stays, Reduce, Reset, Retained, Distinct, Replayed;
    var history := [FrameArrived(HistoryFrame(session, through, page))];
    var start, first := Reset(st, Some(session)), Delivered(before, session);
    ResetConverged(st, session);
    assert Retained(start, session, []) by { ConvergedRetained(start, session, []); }
    assert [] + first == first && first + page + Delivered(after, session) == first + (page + Delivered(after, session));
    ConsistentPrefix(first, page + Delivered(after, session));
    RunRetains(start, session, [], before);
    PageThenSteady(Run(start, before), session, first, through, page, after);
    RunConcat(start, before, history);
    RunConcat(start, before + history, after);
    ConvergedShows(Run(start, before + history + after), session, first + page + Delivered(after, session));
  }

  lemma ConvergedRetained(st: State, session: SessionId, delivered: seq<Event>)
    requires Converged(st, session, delivered)
    ensures Retained(st, session, delivered)
  {
  }

  /** The same from any reachable state of the session: its retained events, the page and what follows. */
  lemma ReachableConverges(actions: seq<Action>, session: SessionId, through: nat, page: seq<Event>, after: seq<Action>)
    requires Run(INITIAL_STATE, actions).session == Some(session) && AllSteady(after, session)
    requires Consistent(Run(INITIAL_STATE, actions).events + page + Delivered(after, session))
    ensures var all := Run(INITIAL_STATE, actions).events + page + Delivered(after, session);
            var r := Run(INITIAL_STATE, actions + [FrameArrived(HistoryFrame(session, through, page))] + after);
            r.events == Distinct(all) && r.projection == Replayed(Distinct(all))
  {
    hide Converged, Consistent, Steady, Reduce, Distinct, Replayed, AsMap, Ordered;
    var history := [FrameArrived(HistoryFrame(session, through, page))];
    var st := Run(INITIAL_STATE, actions);
    ReachableOrdered(actions);
    PageThenSteady(st, session, st.events, through, page, after);
    RunConcat(INITIAL_STATE, actions, history);
    RunConcat(INITIAL_STATE, actions + history, after);
    ConvergedShows(Run(INITIAL_STATE, actions + history + after), session, st.events + page + Delivered(after, session));
  }
}
