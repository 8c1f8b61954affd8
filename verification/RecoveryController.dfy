/**
  The recovery controller as an object: its fields are updated step by step, and each
  await is a resumption.  Every method is the transition of `Recovery` it implements.
 */
module RecoveryController {
  import opened Events
  import opened Recovery
  import opened RecoverySafety

  class ModelRecovery {
    var chain: Option<ChainId>
    var chains: seq<Chain>
    var sequences: map<Option<SessionId>, nat>
    var knownRuns: set<RunId>
    /** The awaits in flight, and what was asked of the outside. */
    var tasks: seq<Task>
    var emitted: seq<Emission>
    var reports: seq<Report>
    /** What the shell currently shows. */
    var scope: Scope

    function State(): Controller
      reads this
    {
      Controller(chain, chains, sequences, knownRuns, tasks, emitted, reports, scope)
    }

    constructor (scope: Scope)
      ensures State() == Recovery.Idle(scope)
    {
      chain, chains, sequences, knownRuns, tasks, emitted, reports := None, [], map[], {}, [], [], [];
      this.scope := scope;
    }

    method StopChain()
      modifies this
      ensures State() == Stop(old(State()))
    {
      chain := None;
    }

    method CompleteChain(id: ChainId)
      requires id < |chains|
      modifies this
      ensures State() == Complete(old(State()), id)
    {
      var recovered := chains[id].retriedRuns;
      StopChain();
      if recovered != {} {
        reports := reports + [Report(id, recovered)];
      }
    }

    method SubmitObjective(objective: string)
      modifies this
      ensures State() == UserSubmits(old(State()), objective)
    {
      StopChain();
      var id := |chains|;
      chains := chains + [NewChain(objective, scope)];
      if scope.connected && !scope.attaching && scope.view == "sessions" {
        chain := Some(id);
      }
      emitted := emitted + [Submitted(id, false)];
      tasks := tasks + [UserSubmit(id)];
    }

    method ReceiveEvent(owner: Option<SessionId>, e: Event, judge: Judge)
      modifies this
      ensures State() == Received(old(State()), DeliveryOf(owner, e, judge))
    {
      hide Hear;
      var baseline := if owner in sequences then sequences[owner] else -1;
      ghost var known := knownRuns;
      var alreadyKnown := e.body.RunStarted? && e.body.run in knownRuns;
      sequences := sequences[owner := if baseline > e.sequence then baseline else e.sequence];
      if e.body.RunStarted? {
        knownRuns := knownRuns + {e.body.run};
      }
      if chain.None? || e.sequence <= baseline || !Valid(State(), chain.value, false) {
        return;
      }
      OfferEvent(chain.value, owner, e, judge, alreadyKnown, known);
    }

    method OfferEvent(id: ChainId, owner: Option<SessionId>, e: Event, judge: Judge, alreadyKnown: bool, ghost known: set<RunId>)
      requires id < |chains| && alreadyKnown == (e.body.RunStarted? && e.body.run in known)
      modifies this
      ensures State() == Hear(old(State()), id, DeliveryOf(owner, e, judge), known)
    {
      hide React;
      ghost var d := DeliveryOf(owner, e, judge);
      if chains[id].run.None? {
        if !e.body.RunStarted? || e.body.objective != chains[id].objective || alreadyKnown {
          return;
        }
        if chains[id].session.Some? && chains[id].session != owner {
          return;
        }
        chains := chains[id := chains[id].(session := owner, run := Some(e.body.run))];
      }
      assert chains == old(chains)[id := Bound(old(chains)[id], d)];
      if chains[id].session != owner || e.sequence in chains[id].seen {
        return;
      }
      var named := RunOf(SignalOf(e.body, judge));
      if named.Some? && named != chains[id].run {
        return;
      }
      chains := chains[id := chains[id].(seen := chains[id].seen + {e.sequence})];
      ghost var bound := Bound(old(chains)[id], d);
      assert chains == old(chains)[id := bound.(seen := bound.seen + {d.sequence})];
      ReactTo(id, e.body, judge);
    }

    /** The switch on the kind of event: what is not listed is an effect. */
    method ReactTo(id: ChainId, body: Body, judge: Judge)
      requires id < |chains|
      modifies this
      ensures State() == React(old(State()), id, SignalOf(body, judge))
    {
      hide React, SignalOf;
      Classified(State(), id, body, judge);
      match body {
        case RunStarted(_, _) | ModelRetrying(_, _, _, _, _) | BudgetWarning(_, _, _, _) | RunUsage(_, _)
           | NoteAppended(_, _) | Upkeep(_) | ModelStreamDelta(_, _, _) =>
        case RunStateChanged(run, state) => ReactToState(id, run, state);
        case RunCompleted(run, disposition) => ReactToEnd(id, run, disposition, judge);
        case _ => MarkEffects(id);
      }
    }

    method MarkEffects(id: ChainId)
      requires id < |chains|
      modifies this
      ensures State() == With(old(State()), id, old(State()).chains[id].(effects := true))
    {
      chains := chains[id := chains[id].(effects := true)];
    }

    method ReactToState(id: ChainId, run: RunId, state: Option<Events.Lifecycle>)
      requires id < |chains|
      modifies this
      ensures State() == React(old(State()), id, StateMoved(run, LifecycleOf(state)))
    {
      if state == Some(Completed) {
        CompleteChain(id);
      } else if state == Some(WaitingForApproval) || state == Some(WaitingForUserInput) {
        chains := chains[id := chains[id].(effects := true)];
      } else if state == Some(Paused) || state == Some(Cancelled) || state == Some(OtherState("Unknown")) {
        StopChain();
      }
    }

    method ReactToEnd(id: ChainId, run: RunId, disposition: Disposition, judge: Judge)
      requires id < |chains|
      modifies this
      ensures State() == React(old(State()), id, SignalOf(RunCompleted(run, disposition), judge))
    {
      hide Recover;
      if disposition.EndedCompleted? {
        CompleteChain(id);
        return;
      }
      chains := chains[id := chains[id].(failure := Some(disposition.EndedFailed? && judge(disposition)))];
      if chains[id].accepted == Some(true) {
        RecoverChain(id);
      }
    }

    method RecoverChain(id: ChainId)
      requires id < |chains|
      modifies this
      ensures State() == Recover(old(State()), id)
    {
      if chains[id].recovering || chains[id].failure.None? {
        return;
      }
      if chains[id].effects || chains[id].attempts >= 2 || !chains[id].failure.value || !Valid(State(), id, false) {
        StopChain();
        return;
      }
      chains := chains[id := chains[id].(recovering := true)];
      tasks := tasks + [ModelsBefore(id)];
    }

    /** Leaving a recovery without finishing it stops the chain, if it is still the current one. */
    method AbandonRecovery(id: ChainId)
      modifies this
      ensures State() == Finally(old(State()), id)
    {
      if chain == Some(id) {
        StopChain();
      }
    }

    method SettleSubmission(id: ChainId, accepted: bool)
      requires id < |chains|
      modifies this
      ensures State() == Settled(old(State()), id, accepted)
    {
      chains := chains[id := chains[id].(accepted := Some(accepted))];
      if !accepted {
        StopChain();
      } else if chains[id].failure.Some? {
        RecoverChain(id);
      }
    }

    method ChooseCandidate(id: ChainId, discovered: seq<string>, configured: set<string>)
      requires id < |chains|
      modifies this
      ensures State() == Choose(old(State()), id, discovered, configured)
    {
      if !Valid(State(), id, true) || chains[id].effects {
        AbandonRecovery(id);
        return;
      }
      var candidate := FirstUntried(discovered, configured, chains[id].tried);
      if candidate.None? {
        AbandonRecovery(id);
        return;
      }
      chains := chains[id := chains[id].(tried := chains[id].tried + {candidate.value},
                                         attempts := chains[id].attempts + 1)];
      emitted := emitted + [Staged(id, candidate.value)];
      tasks := tasks + [Staging(id, candidate.value)];
    }

    method ResubmitObjective(id: ChainId)
      requires id < |chains|
      modifies this
      ensures State() == Resubmits(old(State()), id)
    {
      if !Valid(State(), id, true) || chains[id].effects {
        AbandonRecovery(id);
        return;
      }
      if chains[id].run.Some? {
        chains := chains[id := chains[id].(retriedRuns := chains[id].retriedRuns + {chains[id].run.value})];
      }
      chains := chains[id := chains[id].(run := None, failure := None, accepted := None, seen := {})];
      emitted := emitted + [Submitted(id, true)];
      tasks := tasks + [Resubmit(id)];
    }

    /** The environment answers one await. */
    method ResumeTask(index: nat, reply: Reply)
      requires index < |tasks| && tasks[index].id < |chains|
      modifies this
      ensures State() == Resumed(old(State()), index, reply)
    {
      var task := tasks[index];
      var id := task.id;
      tasks := tasks[..index] + tasks[index + 1..];
      match task {
        case UserSubmit(_) =>
          if reply.Answered? {
            if chain == Some(id) { SettleSubmission(id, reply.accepted); }
          } else {
            AbandonRecovery(id);
          }
        case ModelsBefore(_) =>
          if reply.Models? {
            if reply.pinned.Some? {
              chains := chains[id := chains[id].(tried := chains[id].tried + {reply.pinned.value})];
            }
            if Valid(State(), id, false) {
              tasks := tasks + [Discovery(id)];
              return;
            }
          }
          AbandonRecovery(id);
        case Discovery(_) =>
          if reply.Discovered? && Valid(State(), id, false) {
            tasks := tasks + [ModelsAfter(id, reply.available)];
          } else {
            AbandonRecovery(id);
          }
        case ModelsAfter(_, discovered) =>
          if reply.Models? { ChooseCandidate(id, discovered, reply.configured); } else { AbandonRecovery(id); }
        case Staging(_, _) =>
          if reply.StageDone? { ResubmitObjective(id); } else { AbandonRecovery(id); }
        case Resubmit(_) =>
          if !reply.Answered? {
            AbandonRecovery(id);
          } else if chain == Some(id) {
            chains := chains[id := chains[id].(recovering := false)];
            SettleSubmission(id, reply.accepted);
          }
      }
    }

    /** The shell's scope moved; a rendered change also re-checks the current chain. */
    method MoveScope(now: Scope, refreshed: bool)
      modifies this
      ensures State() == Next(old(State()), ScopeMoves(now, refreshed))
    {
      scope := now;
      if refreshed && chain.Some? && !Valid(State(), chain.value, false) {
        StopChain();
      }
    }
  }

  predicate Harmless(body: Body) {
    body.RunStarted? || body.ModelRetrying? || body.BudgetWarning? || body.RunUsage? || body.NoteAppended? || body.Upkeep?
    || body.ModelStreamDelta?
  }

  /** The three ways a kind of event is reacted to. */
  lemma Classified(c: Controller, id: ChainId, body: Body, judge: Judge)
    requires id < |c.chains|
    ensures Harmless(body) ==> React(c, id, SignalOf(body, judge)) == c
    ensures body.RunStateChanged? ==> SignalOf(body, judge) == StateMoved(body.run, LifecycleOf(body.state))
    ensures !Harmless(body) && !body.RunStateChanged? && !body.RunCompleted? ==>
              React(c, id, SignalOf(body, judge)) == With(c, id, c.chains[id].(effects := true))
  {
    hide LifecycleOf, Recover;
  }

  /** Recovery does recover: answered in scope, it stages the first untried model and resubmits. */
  lemma RecoveryReachesResubmission(c: Controller, id: ChainId, pinned: Option<string>, available: seq<string>,
                                    configured: set<string>)
    requires id < |c.chains| && c.current == Some(id) && StillThere(c.chains[id], c.scope) && !c.chains[id].effects
    requires c.scope.attached && !c.scope.running && c.scope.session.Some?
    requires c.tasks != [] && c.tasks[|c.tasks| - 1] == ModelsBefore(id)
    requires FirstUntried(available, configured, Pinned(c, id, pinned).chains[id].tried).Some?
    ensures var n := |c.tasks| - 1;
            var pick := FirstUntried(available, configured, Pinned(c, id, pinned).chains[id].tried).value;
            var done := Resumed(Resumed(Resumed(Resumed(c, n, Models(pinned, {})), n, Discovered(available)),
                                        n, Models(None, configured)), n, StageDone);
            && done.emitted == c.emitted + [Staged(id, pick), Submitted(id, true)]
            && done.tasks == c.tasks[..n] + [Resubmit(id)]
            && id < |done.chains|
            && done.chains[id].attempts == c.chains[id].attempts + 1
            && done.chains[id].run.None? && done.current == Some(id)
            && done.chains[id].tried == c.chains[id].tried + (if pinned.Some? then {pinned.value} else {}) + {pick}
  {
    var n := |c.tasks| - 1;
    var rest := c.tasks[..n];
    var p := Pinned(c, id, pinned);
    var pick := FirstUntried(available, configured, p.chains[id].tried).value;
    var c1 := Resumed(c, n, Models(pinned, {}));
    assert c1 == p.(tasks := rest + [Discovery(id)]);
    var c2 := Resumed(c1, n, Discovered(available));
    assert c2 == p.(tasks := rest + [ModelsAfter(id, available)]);
    var c3 := Resumed(c2, n, Models(None, configured));
    assert c3.tasks == rest + [Staging(id, pick)];
    assert Valid(c3, id, true) && !c3.chains[id].effects;
    var c4 := Resumed(c3, n, StageDone);
    assert c3.emitted == c.emitted + [Staged(id, pick)];
    assert c4.emitted == c.emitted + [Staged(id, pick), Submitted(id, true)];
  }
}
