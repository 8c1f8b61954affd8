/**
  No unsafe resubmission: once a chain saw an effect, or was stopped, replaced or
  found out of its scope, nothing is staged or submitted for it again; a superseded
  recovery cannot disturb the newer chain; and re-delivered events change nothing.
 */
module RecoverySafety {
  import opened Events
  import opened Folds
  import opened Recovery
  import opened RecoveryBounds

  /** A chain for which nothing may be done any more. */
  predicate Retired(c: Controller, id: ChainId) {
    id < |c.chains| && (c.current != Some(id) || c.chains[id].effects)
  }

  predicate AutomaticFor(e: Emission, id: ChainId) {
    e.id == id && (e.Staged? || e.automatic)
  }

  /** What the controller did by itself for a chain: models staged and objectives resubmitted. */
  function DoneFor(emitted: seq<Emission>, id: ChainId): seq<Emission> {
    if emitted == [] then []
    else
      var rest, last := DoneFor(emitted[..|emitted| - 1], id), emitted[|emitted| - 1];
      if AutomaticFor(last, id) then rest + [last] else rest
  }

  lemma DoneAppend(emitted: seq<Emission>, e: Emission, id: ChainId)
    ensures DoneFor(emitted + [e], id) == if AutomaticFor(e, id) then DoneFor(emitted, id) + [e] else DoneFor(emitted, id)
  {
    assert (emitted + [e])[..|emitted|] == emitted;
  }

  /**
    How the chains of two moments are related by any step: no chain disappears, effects
    stay, and the current chain only ever changes to none or to a brand-new one.
   */
  predicate Follows(a: Controller, b: Controller) {
    && |a.chains| <= |b.chains|
    && (forall id :: 0 <= id < |a.chains| && a.chains[id].effects ==> b.chains[id].effects)
    && (b.current == a.current || b.current.None? || b.current.value >= |a.chains|)
  }

  lemma RecoverFollows(c: Controller, id: ChainId)
    requires id < |c.chains|
    ensures Follows(c, Recover(c, id)) && Recover(c, id).emitted == c.emitted
  {
  }

  lemma SettledFollows(c: Controller, id: ChainId, accepted: bool)
    requires id < |c.chains|
    ensures Follows(c, Settled(c, id, accepted)) && Settled(c, id, accepted).emitted == c.emitted
  {
    hide Recover;
    RecoverFollows(With(c, id, c.chains[id].(accepted := Some(accepted))), id);
  }

  lemma ReactFollows(c: Controller, id: ChainId, signal: Signal)
    requires id < |c.chains|
    ensures Follows(c, React(c, id, signal)) && React(c, id, signal).emitted == c.emitted
  {
    hide Recover;
    if signal.Ended? {
      RecoverFollows(With(c, id, c.chains[id].(failure := Some(signal.recoverable))), id);
    }
  }

  lemma ReceivedFollows(c: Controller, d: Delivery)
    requires Bounded(c)
    ensures Follows(c, Received(c, d)) && Received(c, d).emitted == c.emitted
  {
    hide React, Bounded, Own;
    if c.current.Some? && Valid(c, c.current.value, false) {
      var bound := Bound(c.chains[c.current.value], d);
      ReactFollows(With(Note(c, d), c.current.value, bound.(seen := bound.seen + {d.sequence})), c.current.value, d.signal);
    }
  }

  lemma ContinueFollows(c: Controller, task: Task, reply: Reply)
    requires task.id < |c.chains|
    ensures Follows(c, Continue(c, task, reply))
  {
    hide Settled;
    if task.UserSubmit? && reply.Answered? { SettledFollows(c, task.id, reply.accepted); }
    if task.Resubmit? && reply.Answered? {
      SettledFollows(With(c, task.id, c.chains[task.id].(recovering := false)), task.id, reply.accepted);
    }
  }

  /** A continuation emits for its own chain only, and only while that chain is safely in scope. */
  lemma ContinueEmits(c: Controller, task: Task, reply: Reply)
    requires task.id < |c.chains|
    ensures var c' := Continue(c, task, reply);
            c'.emitted == c.emitted
            || (Valid(c, task.id, true) && !c.chains[task.id].effects
                && exists e: Emission :: e.id == task.id && c'.emitted == c.emitted + [e])
  {
    hide Settled;
    if task.UserSubmit? && reply.Answered? { SettledFollows(c, task.id, reply.accepted); }
    if task.Resubmit? && reply.Answered? {
      SettledFollows(With(c, task.id, c.chains[task.id].(recovering := false)), task.id, reply.accepted);
    }
    if task.ModelsAfter? && reply.Models? && Valid(c, task.id, true) && !c.chains[task.id].effects {
      var pick := FirstUntried(task.discovered, reply.configured, c.chains[task.id].tried);
      if pick.Some? { assert Staged(task.id, pick.value).id == task.id; }
    }
    if task.Staging? { assert Submitted(task.id, true).id == task.id; }
  }

  lemma NextFollows(c: Controller, step: Step)
    requires Bounded(c)
    ensures Follows(c, Next(c, step))
  {
    hide Received, Continue, Bounded;
    match step {
      case Receive(d) => ReceivedFollows(c, d);
      case Resume(index, reply) =>
        if index < |c.tasks| && c.tasks[index].id < |c.chains| {
          ContinueFollows(Without(c, index), c.tasks[index], reply);
        }
      case _ =>
    }
  }

  lemma RetiredStays(a: Controller, b: Controller, id: ChainId)
    requires Follows(a, b) && Retired(a, id)
    ensures Retired(b, id)
  {
  }

  /** A step stages or resubmits for a chain only while it is current, in scope and free of effects. */
  lemma ActsOnlyInScope(c: Controller, step: Step, id: ChainId)
    requires Bounded(c) && DoneFor(Next(c, step).emitted, id) != DoneFor(c.emitted, id)
    ensures Valid(c, id, true) && !c.chains[id].effects
  {
    hide Received, Continue, Valid;
    match step {
      case Submit(objective) => DoneAppend(c.emitted, Submitted(|c.chains|, false), id);
      case Receive(d) => ReceivedFollows(c, d);
      case Resume(index, reply) =>
        if index < |c.tasks| {
          var task, c0 := c.tasks[index], Without(c, index);
          ContinueEmits(c0, task, reply);
          var c' := Continue(c0, task, reply);
          assert Valid(c0, task.id, true) == Valid(c, task.id, true) by { SameValidity(c, index, task.id); }
          if c'.emitted != c.emitted {
            var e: Emission :| e.id == task.id && c'.emitted == c.emitted + [e];
            DoneAppend(c.emitted, e, id);
          }
        }
      case _ =>
    }
  }

  lemma SameValidity(c: Controller, index: nat, id: ChainId)
    requires index < |c.tasks|
    ensures Valid(Without(c, index), id, true) == Valid(c, id, true)
  {
  }

  lemma RunFollowsBounded(c: Controller, steps: seq<Step>, id: ChainId)
    requires Bounded(c) && Retired(c, id)
    ensures Bounded(Run(c, steps)) && Retired(Run(c, steps), id)
    ensures DoneFor(Run(c, steps).emitted, id) == DoneFor(c.emitted, id)
  {
    hide Next, Bounded, DoneFor;
    if steps != [] {
      var n := |steps| - 1;
      RunFollowsBounded(c, steps[..n], id);
      var before := Run(c, steps[..n]);
      NextBounded(before, steps[n]);
      NextFollows(before, steps[n]);
      RetiredStays(before, Next(before, steps[n]), id);
      if DoneFor(Next(before, steps[n]).emitted, id) != DoneFor(before.emitted, id) {
        ActsOnlyInScope(before, steps[n], id);
      }
    }
  }

  /** Once a chain is retired, nothing is ever staged or resubmitted for it again. */
  lemma NothingAfterRetirement(scope: Scope, before: seq<Step>, after: seq<Step>, id: ChainId)
    requires Retired(Run(Recovery.Idle(scope), before), id)
    ensures DoneFor(Run(Recovery.Idle(scope), before + after).emitted, id)
         == DoneFor(Run(Recovery.Idle(scope), before).emitted, id)
  {
    hide DoneFor, Retired;
    RunBounded(scope, before);
    RunFollowsBounded(Run(Recovery.Idle(scope), before), after, id);
    FoldLeftConcat(Next, Recovery.Idle(scope), before, after);
  }

  // ----- what a chain accepts

  /** Connected, not attaching, and all that the submission captured as it was; a session may still be missing on both sides. */
  predicate StillThere(chain: Chain, now: Scope) {
    && now.connected && !now.attaching && now.view == "sessions"
    && now.epoch == chain.scope.epoch && now.repository == chain.scope.repository && now.mode == chain.scope.mode
    && now.draftRevision == chain.scope.draftRevision && now.modelRevision == chain.scope.modelRevision
    && (now.session == chain.session || (now.session.None? && chain.scope.session.None?))
  }

  /** The run an event names, if it names one. */
  function NamedRun(body: Body): Option<RunId> {
    if body.Upkeep? then body.upkeepRun
    else if body.Unrendered? then body.otherRun
    else if body.NoteAppended? then (if body.run == "" then None else Some(body.run))
    else if body.ApprovalRequested? || body.ApprovalResolved? || body.QuestionResolved? || body.PendingPromptsChanged? then None
    else Some(body.run)
  }

  /** The event is new to its session, and heard where the current chain was submitted. */
  predicate Offered(c: Controller, id: ChainId, session: Option<SessionId>, e: Event) {
    && id < |c.chains| && c.current == Some(id) && StillThere(c.chains[id], c.scope)
    && (session in c.sequences ==> e.sequence > c.sequences[session])
  }

  /** And it is one of the run the chain is bound to, new to the chain. */
  predicate Accepts(c: Controller, id: ChainId, session: Option<SessionId>, e: Event) {
    && Offered(c, id, session, e)
    && c.chains[id].run.Some? && c.chains[id].session == session && e.sequence !in c.chains[id].seen
    && (NamedRun(e.body).None? || NamedRun(e.body) == c.chains[id].run)
  }

  lemma OfferedIsHeard(c: Controller, id: ChainId, session: Option<SessionId>, e: Event, judge: Judge)
    ensures var d := DeliveryOf(session, e, judge);
            && (Offered(c, id, session, e) <==> Valid(c, id, false) && d.sequence > Baseline(c, d.session))
            && (Accepts(c, id, session, e) <==>
                  Valid(c, id, false) && d.sequence > Baseline(c, d.session) && c.chains[id].run.Some? && Own(c.chains[id], d))
  {
  }

  /** What a bound chain does not accept changes nothing for it, nor for any other chain. */
  lemma OthersAreIgnored(c: Controller, id: ChainId, session: Option<SessionId>, e: Event, judge: Judge)
    requires id < |c.chains| && c.current == Some(id) && c.chains[id].run.Some? && !Accepts(c, id, session, e)
    ensures var c' := Next(c, Receive(DeliveryOf(session, e, judge)));
            c'.current == c.current && c'.chains == c.chains && c'.tasks == c.tasks && c'.emitted == c.emitted && c'.reports == c.reports
  {
    hide Own, Valid, Offered, Accepts, React;
    OfferedIsHeard(c, id, session, e, judge);
    var d := DeliveryOf(session, e, judge);
    assert Bound(c.chains[id], d) == c.chains[id];
    assert c.chains[id := c.chains[id]] == c.chains;
  }

  /** Starts, streamed text, retries, budgets, usage, notes, bookkeeping, and the states of a run that goes on. */
  predicate GoesOn(body: Body) {
    || body.RunStarted? || body.ModelStreamDelta? || body.ModelRetrying? || body.BudgetWarning? || body.RunUsage?
    || body.NoteAppended? || body.Upkeep?
    || (body.RunStateChanged? && (body.state.None? || body.state.value in {Queued, Preparing, Running, Recovering, Failed}))
  }

  /** Such an event of the bound run is recorded as seen, and changes nothing else. */
  lemma GoingOnChangesNothing(c: Controller, id: ChainId, session: Option<SessionId>, e: Event, judge: Judge)
    requires Accepts(c, id, session, e) && GoesOn(e.body)
    ensures var c', chain := Next(c, Receive(DeliveryOf(session, e, judge))), c.chains[id];
            && c'.current == c.current && c'.chains == c.chains[id := chain.(seen := chain.seen + {e.sequence})]
            && c'.tasks == c.tasks && c'.emitted == c.emitted && c'.reports == c.reports
  {
    hide Own, Valid, Accepts;
    OfferedIsHeard(c, id, session, e, judge);
    var d := DeliveryOf(session, e, judge);
    assert Bound(c.chains[id], d) == c.chains[id];
  }

  // ----- what retires a chain

  /** A new event of the bound run that may have had an effect. */
  predicate MayAffect(signal: Signal) {
    signal.Effect? || (signal.StateMoved? && signal.lifecycle.RunWaits?)
  }

  lemma EffectRetires(c: Controller, d: Delivery, id: ChainId)
    requires Valid(c, id, false) && d.sequence > Baseline(c, d.session)
    requires c.chains[id].run.Some? && Own(c.chains[id], d) && MayAffect(d.signal)
    ensures Retired(Next(c, Receive(d)), id)
  {
  }

  lemma InterruptionRetires(c: Controller, step: Step, id: ChainId)
    requires Bounded(c) && id < |c.chains|
    requires step.Submit? || step.Cancel? || step.Disconnect?
             || (step.ScopeMoves? && step.refreshed && !StillThere(c.chains[id], step.scope))
    ensures Retired(Next(c, step), id)
  {
  }

  /** A re-checked scope change stops the chain exactly when it left its scope, and touches nothing else. */
  lemma ScopeMovesExactly(c: Controller, scope: Scope, refreshed: bool)
    requires Bounded(c)
    ensures var stops := refreshed && c.current.Some? && !StillThere(c.chains[c.current.value], scope);
            Next(c, ScopeMoves(scope, refreshed)) == c.(scope := scope, current := if stops then None else c.current)
  {
    hide Fits, SoleRecovery, DistinctStaged;
  }

  /** The run settling well, or being paused or cancelled, retires its chain too. */
  lemma OutcomeRetires(c: Controller, d: Delivery, id: ChainId)
    requires Valid(c, id, false) && d.sequence > Baseline(c, d.session)
    requires c.chains[id].run.Some? && Own(c.chains[id], d)
    requires (d.signal.Ended? && d.signal.completed)
             || (d.signal.StateMoved? && (d.signal.lifecycle.RunEndedWell? || d.signal.lifecycle.RunHalted?))
    ensures Retired(Next(c, Receive(d)), id)
  {
  }

  // ----- over runs of durable events

  /** Tools, approvals, questions, patches, queue changes, unknown kinds, and a run that waits for a human. */
  predicate HasEffect(body: Body) {
    || body.ToolStarted? || body.ToolUpdated? || body.ToolCompleted? || body.ToolDenied?
    || body.ApprovalRequested? || body.ApprovalResolved? || body.QuestionAsked? || body.QuestionResolved?
    || body.PatchProposed? || body.PendingPromptsChanged? || body.Unrendered?
    || (body.RunStateChanged? && (body.state == Some(WaitingForApproval) || body.state == Some(WaitingForUserInput)))
  }

  /** The run finished, was paused or was cancelled. */
  predicate Concludes(body: Body) {
    || (body.RunCompleted? && body.disposition.EndedCompleted?)
    || (body.RunStateChanged? && body.state.Some?
        && body.state.value in {Events.Completed, Events.Paused, Events.Cancelled, Events.OtherState("Unknown")})
  }

  lemma AcceptedRetires(c: Controller, id: ChainId, session: Option<SessionId>, e: Event, judge: Judge)
    requires Bounded(c) && Accepts(c, id, session, e) && (HasEffect(e.body) || Concludes(e.body))
    ensures var c' := Next(c, Receive(DeliveryOf(session, e, judge))); Retired(c', id) && c'.emitted == c.emitted
  {
    hide Own, Valid, Bounded, Accepts;
    var d := DeliveryOf(session, e, judge);
    OfferedIsHeard(c, id, session, e, judge);
    ReceivedFollows(c, d);
    if MayAffect(d.signal) { EffectRetires(c, d, id); } else { OutcomeRetires(c, d, id); }
  }

  /**
    Over every run: once an effect or the conclusion of the bound run was accepted, no
    later step stages a model or resubmits the objective for that chain.
   */
  lemma NothingAfterEffect(scope: Scope, before: seq<Step>, session: Option<SessionId>, e: Event, judge: Judge,
                           after: seq<Step>, id: ChainId)
    requires Accepts(Run(Recovery.Idle(scope), before), id, session, e)
    requires HasEffect(e.body) || Concludes(e.body)
    ensures DoneFor(Run(Recovery.Idle(scope), before + [Receive(DeliveryOf(session, e, judge))] + after).emitted, id)
         == DoneFor(Run(Recovery.Idle(scope), before).emitted, id)
  {
    hide Next, DoneFor, Retired, Accepts, HasEffect, Concludes, Bounded;
    var c, step := Run(Recovery.Idle(scope), before), Receive(DeliveryOf(session, e, judge));
    RunBounded(scope, before);
    AcceptedRetires(c, id, session, e, judge);
    FoldLeftConcat(Next, Recovery.Idle(scope), before, [step]);
    OneStep(Next, c, step);
    NothingAfterRetirement(scope, before + [step], after, id);
  }

  // ----- superseded recoveries

  /** A continuation of an older chain leaves the current chain, and everything about it, alone. */
  lemma SupersededIsHarmless(c: Controller, index: nat, reply: Reply)
    requires Bounded(c) && index < |c.tasks| && c.current != Some(c.tasks[index].id)
    ensures var c' := Next(c, Resume(index, reply));
            && c'.current == c.current && c'.emitted == c.emitted && |c'.chains| == |c.chains|
            && forall id :: 0 <= id < |c.chains| && id != c.tasks[index].id ==> c'.chains[id] == c.chains[id]
  {
    hide Fits, SoleRecovery, DistinctStaged;
  }

  // ----- re-delivery

  /** Every delivery so far is covered by the baseline and the known runs. */
  predicate Heard(c: Controller, d: Delivery) {
    d.session in c.sequences && d.sequence <= c.sequences[d.session]
    && (d.signal.Started? ==> d.signal.started in c.knownRuns)
  }

  lemma HeardAgainChangesNothing(c: Controller, d: Delivery)
    requires Heard(c, d)
    ensures Next(c, Receive(d)) == c
  {
    assert c.sequences[d.session := c.sequences[d.session]] == c.sequences;
  }

  /** An event at or below the baseline never reaches a chain, heard before or not. */
  lemma BelowBaselineIsInert(c: Controller, d: Delivery)
    requires d.sequence <= Baseline(c, d.session)
    ensures var c' := Next(c, Receive(d));
            c' == c.(knownRuns := if d.signal.Started? then c.knownRuns + {d.signal.started} else c.knownRuns)
  {
    assert c.sequences[d.session := c.sequences[d.session]] == c.sequences;
  }

  /** Nothing forgets what was heard. */
  predicate HeardMore(a: Controller, b: Controller) {
    && a.knownRuns <= b.knownRuns
    && forall s :: s in a.sequences ==> s in b.sequences && a.sequences[s] <= b.sequences[s]
  }

  lemma RecoverHears(c: Controller, id: ChainId)
    requires id < |c.chains|
    ensures Recover(c, id).sequences == c.sequences && Recover(c, id).knownRuns == c.knownRuns
  {
  }

  lemma SettledHears(c: Controller, id: ChainId, accepted: bool)
    requires id < |c.chains|
    ensures Settled(c, id, accepted).sequences == c.sequences && Settled(c, id, accepted).knownRuns == c.knownRuns
  {
    hide Recover;
    RecoverHears(With(c, id, c.chains[id].(accepted := Some(accepted))), id);
  }

  lemma ContinueHears(c: Controller, task: Task, reply: Reply)
    requires task.id < |c.chains|
    ensures Continue(c, task, reply).sequences == c.sequences && Continue(c, task, reply).knownRuns == c.knownRuns
  {
    hide Settled;
    if task.UserSubmit? && reply.Answered? { SettledHears(c, task.id, reply.accepted); }
    if task.Resubmit? && reply.Answered? {
      SettledHears(With(c, task.id, c.chains[task.id].(recovering := false)), task.id, reply.accepted);
    }
  }

  lemma ReactHears(c: Controller, id: ChainId, signal: Signal)
    requires id < |c.chains|
    ensures React(c, id, signal).sequences == c.sequences && React(c, id, signal).knownRuns == c.knownRuns
  {
    hide Recover;
    if signal.Ended? {
      RecoverHears(With(c, id, c.chains[id].(failure := Some(signal.recoverable))), id);
    }
  }

  lemma ReceivedHears(c: Controller, d: Delivery)
    ensures HeardMore(c, Received(c, d)) && Heard(Received(c, d), d)
  {
    hide React, Own;
    if c.current.Some? && Valid(c, c.current.value, false) {
      var bound := Bound(c.chains[c.current.value], d);
      ReactHears(With(Note(c, d), c.current.value, bound.(seen := bound.seen + {d.sequence})), c.current.value, d.signal);
    }
  }

  lemma NextHears(c: Controller, step: Step)
    ensures HeardMore(c, Next(c, step))
    ensures step.Receive? ==> Heard(Next(c, step), step.delivery)
  {
    hide Received, Continue, Heard;
    match step {
      case Receive(d) => ReceivedHears(c, d);
      case Resume(index, reply) =>
        if index < |c.tasks| && c.tasks[index].id < |c.chains| {
          ContinueHears(Without(c, index), c.tasks[index], reply);
        }
      case _ =>
    }
  }

  lemma StillHeard(a: Controller, b: Controller, d: Delivery)
    requires HeardMore(a, b) && Heard(a, d)
    ensures Heard(b, d)
  {
  }

  lemma {:induction false} DeliveredIsHeard(c: Controller, steps: seq<Step>, k: nat)
    requires k < |steps| && steps[k].Receive?
    ensures Heard(Run(c, steps), steps[k].delivery)
  {
    hide Next, Heard, HeardMore;
    var n := |steps| - 1;
    var before := Run(c, steps[..n]);
    NextHears(before, steps[n]);
    if k < n {
      assert steps[..n][k] == steps[k];
      DeliveredIsHeard(c, steps[..n], k);
      StillHeard(before, Next(before, steps[n]), steps[k].delivery);
    }
  }

  /** Delivering again, at any later time, an event that was delivered before changes nothing. */
  lemma RedeliveryIsIdempotent(scope: Scope, steps: seq<Step>, k: nat)
    requires k < |steps| && steps[k].Receive?
    ensures Run(Recovery.Idle(scope), steps + [steps[k]]) == Run(Recovery.Idle(scope), steps)
  {
    hide Next, Heard;
    var c := Run(Recovery.Idle(scope), steps);
    DeliveredIsHeard(Recovery.Idle(scope), steps, k);
    HeardAgainChangesNothing(c, steps[k].delivery);
    FoldLeftConcat(Next, Recovery.Idle(scope), steps, [steps[k]]);
    OneStep(Next, c, steps[k]);
  }
}
