/**
  Why the controller acts: only after a model failure of the run it was bound to, and
  only where the objective was submitted.  And when it does not: any other failure
  retires its chain.
 */
module RecoveryCauses {
  import opened Events
  import opened Folds
  import opened Recovery
  import opened RecoveryBounds
  import opened RecoverySafety

  // ----- the failure behind every automatic act

  /** The step delivers the end of `run` in a failure that was judged a model failure. */
  predicate DeliversFailure(step: Step, run: RunId) {
    step.Receive? && step.delivery.signal == Ended(run, false, true)
  }

  /** Every delivery of the run is a durable event, judged by `judge`. */
  ghost predicate Durable(steps: seq<Step>, judge: Judge) {
    forall k :: 0 <= k < |steps| && steps[k].Receive? ==> IsEvent(steps[k].delivery, judge)
  }

  ghost predicate IsEvent(d: Delivery, judge: Judge) {
    exists session: Option<SessionId>, e: Event :: d == DeliveryOf(session, e, judge)
  }

  /** The delivered event completes `run` in a failure judged recoverable. */
  ghost predicate CompletesRecoverably(d: Delivery, run: RunId, judge: Judge) {
    exists session: Option<SessionId>, e: Event ::
      && d == DeliveryOf(session, e, judge)
      && e.body.RunCompleted? && e.body.run == run
      && e.body.disposition.EndedFailed? && judge(e.body.disposition)
  }

  /** Before step `k`, chain `id` was bound to `run`. */
  predicate BoundTo(scope: Scope, steps: seq<Step>, id: ChainId, run: RunId) {
    var c := Run(Recovery.Idle(scope), steps); id < |c.chains| && c.chains[id].run == Some(run)
  }

  /** An earlier step delivered the failure of `run`, while chain `id` was bound to it. */
  predicate Witnessed(scope: Scope, steps: seq<Step>, id: ChainId, run: RunId) {
    exists k :: 0 <= k < |steps| && DeliversFailure(steps[k], run) && BoundTo(scope, steps[..k], id, run)
  }

  lemma WitnessedStays(scope: Scope, steps: seq<Step>, step: Step, id: ChainId, run: RunId)
    requires Witnessed(scope, steps, id, run)
    ensures Witnessed(scope, steps + [step], id, run)
  {
    hide BoundTo, DeliversFailure;
    var k :| 0 <= k < |steps| && DeliversFailure(steps[k], run) && BoundTo(scope, steps[..k], id, run);
    assert (steps + [step])[..k] == steps[..k] && (steps + [step])[k] == steps[k];
  }

  type Cause = (ChainId, RunId) -> bool

  predicate AllCaused(id: ChainId, runs: set<RunId>, cause: Cause) { forall run :: run in runs ==> cause(id, run) }

  /** A failure belongs to a bound run, and every run recovered or being recovered has a cause. */
  predicate ChainCaused(chain: Chain, id: ChainId, cause: Cause) {
    && (chain.failure.Some? ==> chain.run.Some?)
    && (chain.failure == Some(true) ==> cause(id, chain.run.value))
    && AllCaused(id, chain.retriedRuns, cause)
  }

  /** A recovery that has not resubmitted yet. */
  predicate Pending(task: Task) { Recovers(task) && !task.Resubmit? }

  predicate TaskCaused(c: Controller, task: Task, cause: Cause) {
    task.id < |c.chains| && (Pending(task) ==> c.chains[task.id].run.Some? && cause(task.id, c.chains[task.id].run.value))
  }

  predicate Caused(c: Controller, cause: Cause) {
    && (forall id :: 0 <= id < |c.chains| ==> ChainCaused(c.chains[id], id, cause))
    && (forall k :: 0 <= k < |c.tasks| ==> TaskCaused(c, c.tasks[k], cause))
    && (forall k :: 0 <= k < |c.reports| ==> c.reports[k].runs != {} && AllCaused(c.reports[k].id, c.reports[k].runs, cause))
  }

  ghost predicate Wider(cause: Cause, more: Cause) { forall id, run :: cause(id, run) ==> more(id, run) }

  lemma CausedWider(c: Controller, cause: Cause, more: Cause)
    requires Caused(c, cause) && Wider(cause, more)
    ensures Caused(c, more)
  {
    forall k | 0 <= k < |c.tasks| ensures TaskCaused(c, c.tasks[k], more) {
      assert TaskCaused(c, c.tasks[k], cause);
    }
    forall id | 0 <= id < |c.chains| ensures ChainCaused(c.chains[id], id, more) {
      assert ChainCaused(c.chains[id], id, cause);
    }
  }

  /** Rewriting a chain that keeps its run. */
  lemma WithCaused(c: Controller, id: ChainId, chain: Chain, cause: Cause)
    requires Caused(c, cause) && id < |c.chains| && ChainCaused(chain, id, cause)
    requires chain.run == c.chains[id].run || c.chains[id].run.None?
    ensures Caused(With(c, id, chain), cause)
  {
    hide ChainCaused;
    forall k | 0 <= k < |c.tasks| ensures TaskCaused(With(c, id, chain), c.tasks[k], cause) {
      assert TaskCaused(c, c.tasks[k], cause);
    }
  }

  lemma AwaitCaused(c: Controller, task: Task, cause: Cause)
    requires Caused(c, cause) && TaskCaused(c, task, cause)
    ensures Caused(Await(c, task), cause)
  {
    hide ChainCaused;
    forall k | 0 <= k < |c.tasks| + 1 ensures TaskCaused(Await(c, task), (c.tasks + [task])[k], cause) {
      if k < |c.tasks| { assert TaskCaused(c, c.tasks[k], cause); }
    }
  }

  lemma RecoverCaused(c: Controller, id: ChainId, cause: Cause)
    requires Caused(c, cause) && id < |c.chains|
    ensures Caused(Recover(c, id), cause)
  {
    hide Caused;
    var chain := c.chains[id];
    if !chain.recovering && chain.failure.Some? && !chain.effects && chain.attempts < 2 && chain.failure.value && Valid(c, id, false) {
      assert ChainCaused(chain, id, cause) by { ChainOf(c, id, cause); }
      WithCaused(c, id, chain.(recovering := true), cause);
      AwaitCaused(With(c, id, chain.(recovering := true)), ModelsBefore(id), cause);
    } else {
      StopCaused(c, cause);
    }
  }

  lemma ChainOf(c: Controller, id: ChainId, cause: Cause)
    requires Caused(c, cause) && id < |c.chains|
    ensures ChainCaused(c.chains[id], id, cause)
  {
  }

  lemma StopCaused(c: Controller, cause: Cause)
    requires Caused(c, cause)
    ensures Caused(Stop(c), cause)
  {
    forall k | 0 <= k < |c.tasks| ensures TaskCaused(Stop(c), c.tasks[k], cause) { assert TaskCaused(c, c.tasks[k], cause); }
  }

  lemma SettledCaused(c: Controller, id: ChainId, accepted: bool, cause: Cause)
    requires Caused(c, cause) && id < |c.chains|
    ensures Caused(Settled(c, id, accepted), cause)
  {
    hide Caused, Recover;
    var c1 := With(c, id, c.chains[id].(accepted := Some(accepted)));
    ChainOf(c, id, cause);
    WithCaused(c, id, c.chains[id].(accepted := Some(accepted)), cause);
    StopCaused(c1, cause);
    RecoverCaused(c1, id, cause);
  }

  lemma EmittedCaused(c: Controller, emitted: seq<Emission>, cause: Cause)
    requires Caused(c, cause)
    ensures Caused(c.(emitted := emitted), cause)
  {
    forall k | 0 <= k < |c.tasks| ensures TaskCaused(c.(emitted := emitted), c.tasks[k], cause) {
      assert TaskCaused(c, c.tasks[k], cause);
    }
  }

  lemma ChooseCaused(c: Controller, id: ChainId, discovered: seq<string>, configured: set<string>, cause: Cause)
    requires Caused(c, cause) && id < |c.chains| && c.chains[id].run.Some? && cause(id, c.chains[id].run.value)
    ensures Caused(Choose(c, id, discovered, configured), cause)
  {
    hide Caused, FirstUntried;
    StopCaused(c, cause);
    var chain, pick := c.chains[id], FirstUntried(discovered, configured, c.chains[id].tried);
    if Valid(c, id, true) && !chain.effects && pick.Some? {
      var next := chain.(tried := chain.tried + {pick.value}, attempts := chain.attempts + 1);
      ChainOf(c, id, cause);
      WithCaused(c, id, next, cause);
      AwaitCaused(With(c, id, next), Staging(id, pick.value), cause);
      EmittedCaused(Await(With(c, id, next), Staging(id, pick.value)), c.emitted + [Staged(id, pick.value)], cause);
    }
  }

  /** Clearing the run of a chain with no recovery pending. */
  lemma UnboundCaused(c: Controller, id: ChainId, chain: Chain, cause: Cause)
    requires Caused(c, cause) && id < |c.chains| && chain.failure.None? && AllCaused(id, chain.retriedRuns, cause) && Free(c.tasks, id)
    ensures Caused(With(c, id, chain), cause)
  {
    forall k | 0 <= k < |c.tasks| ensures TaskCaused(With(c, id, chain), c.tasks[k], cause) {
      assert TaskCaused(c, c.tasks[k], cause);
    }
  }

  lemma ResubmitsCaused(c: Controller, id: ChainId, cause: Cause)
    requires Caused(c, cause) && id < |c.chains| && Free(c.tasks, id)
    requires c.chains[id].run.Some? ==> cause(id, c.chains[id].run.value)
    ensures Caused(Resubmits(c, id), cause)
  {
    hide Caused, Free;
    StopCaused(c, cause);
    ChainOf(c, id, cause);
    var chain := c.chains[id];
    if Valid(c, id, true) && !chain.effects {
      var next := chain.(retriedRuns := if chain.run.Some? then chain.retriedRuns + {chain.run.value} else chain.retriedRuns,
                         run := None, failure := None, accepted := None, seen := {});
      UnboundCaused(c, id, next, cause);
      AwaitCaused(With(c, id, next), Resubmit(id), cause);
      EmittedCaused(Await(With(c, id, next), Resubmit(id)), c.emitted + [Submitted(id, true)], cause);
    }
  }

  lemma ContinueCaused(c: Controller, task: Task, reply: Reply, cause: Cause)
    requires Caused(c, cause) && TaskCaused(c, task, cause) && (Recovers(task) ==> Free(c.tasks, task.id))
    ensures Caused(Continue(c, task, reply), cause)
  {
    hide Caused, Settled, Choose, Resubmits, Valid, Free;
    var id := task.id;
    StopCaused(c, cause);
    match task {
      case UserSubmit(_) => if reply.Answered? { SettledCaused(c, id, reply.accepted, cause); }
      case ModelsBefore(_) =>
        if reply.Models? {
          var c1 := Pinned(c, id, reply.pinned);
          if reply.pinned.Some? {
            ChainOf(c, id, cause);
            WithCaused(c, id, c.chains[id].(tried := c.chains[id].tried + {reply.pinned.value}), cause);
          }
          StopCaused(c1, cause);
          AwaitCaused(c1, Discovery(id), cause);
        }
      case Discovery(_) => if reply.Discovered? { AwaitCaused(c, ModelsAfter(id, reply.available), cause); }
      case ModelsAfter(_, discovered) => if reply.Models? { ChooseCaused(c, id, discovered, reply.configured, cause); }
      case Staging(_, _) => ResubmitsCaused(c, id, cause);
      case Resubmit(_) =>
        if reply.Answered? {
          ChainOf(c, id, cause);
          WithCaused(c, id, c.chains[id].(recovering := false), cause);
          SettledCaused(With(c, id, c.chains[id].(recovering := false)), id, reply.accepted, cause);
        }
    }
  }

  lemma WithoutCaused(c: Controller, index: nat, cause: Cause)
    requires Caused(c, cause) && index < |c.tasks|
    ensures Caused(Without(c, index), cause) && TaskCaused(Without(c, index), c.tasks[index], cause)
  {
    var c' := Without(c, index);
    assert TaskCaused(c, c.tasks[index], cause);
    forall k | 0 <= k < |c'.tasks| ensures TaskCaused(c', c'.tasks[k], cause) {
      assert c'.tasks[k] == c.tasks[if k < index then k else k + 1];
      assert TaskCaused(c, c.tasks[if k < index then k else k + 1], cause);
    }
  }

  lemma CompleteCaused(c: Controller, id: ChainId, cause: Cause)
    requires Caused(c, cause) && id < |c.chains|
    ensures Caused(Complete(c, id), cause)
  {
    StopCaused(c, cause);
    ChainOf(c, id, cause);
    var c' := Complete(c, id);
    forall k | 0 <= k < |c'.tasks| ensures TaskCaused(c', c'.tasks[k], cause) { assert TaskCaused(c, c.tasks[k], cause); }
  }

  lemma ReactCaused(c: Controller, id: ChainId, signal: Signal, cause: Cause)
    requires Caused(c, cause) && id < |c.chains|
    requires signal.Ended? && !signal.completed ==> c.chains[id].run.Some?
    requires signal.Ended? && !signal.completed && signal.recoverable ==> cause(id, c.chains[id].run.value)
    ensures Caused(React(c, id, signal), cause)
  {
    hide Caused, Recover, Complete;
    ChainOf(c, id, cause);
    StopCaused(c, cause);
    CompleteCaused(c, id, cause);
    WithCaused(c, id, c.chains[id].(effects := true), cause);
    if signal.Ended? && !signal.completed {
      var failed := c.chains[id].(failure := Some(signal.recoverable));
      WithCaused(c, id, failed, cause);
      RecoverCaused(With(c, id, failed), id, cause);
    }
  }

  lemma NoteCaused(c: Controller, d: Delivery, cause: Cause)
    requires Caused(c, cause)
    ensures Caused(Note(c, d), cause)
  {
    forall k | 0 <= k < |c.tasks| ensures TaskCaused(Note(c, d), c.tasks[k], cause) { assert TaskCaused(c, c.tasks[k], cause); }
  }

  /** A delivery adds a cause only for the current chain, bound to the run that failed. */
  lemma ReceivedCaused(c: Controller, d: Delivery, cause: Cause)
    requires Caused(c, cause) && (c.current.Some? ==> c.current.value < |c.chains|)
    requires (d.signal.Ended? && !d.signal.completed && d.signal.recoverable && c.current.Some?
              && c.chains[c.current.value].run == Some(d.signal.ended)) ==> cause(c.current.value, d.signal.ended)
    ensures Caused(Received(c, d), cause)
  {
    hide Caused, React, Valid, ChainCaused;
    NoteCaused(c, d, cause);
    if c.current.Some? && d.sequence > Baseline(c, d.session) && Valid(c, c.current.value, false) {
      var id, noted := c.current.value, Note(c, d);
      var chain := c.chains[id];
      if chain.run.Some? || Binds(chain, d, c.knownRuns) {
        var bound := Bound(chain, d);
        BoundCaused(c, id, d, cause);
        WithCaused(noted, id, bound, cause);
        var seen := bound.(seen := bound.seen + {d.sequence});
        SeenCaused(bound, id, d.sequence, cause);
        WithCaused(noted, id, seen, cause);
        if Own(bound, d) { ReactCaused(With(noted, id, seen), id, d.signal, cause); }
      }
    }
  }

  lemma BoundCaused(c: Controller, id: ChainId, d: Delivery, cause: Cause)
    requires Caused(c, cause) && id < |c.chains|
    ensures ChainCaused(Bound(c.chains[id], d), id, cause)
  {
    assert ChainCaused(c.chains[id], id, cause);
  }

  lemma SeenCaused(chain: Chain, id: ChainId, sequence: nat, cause: Cause)
    requires ChainCaused(chain, id, cause)
    ensures ChainCaused(chain.(seen := chain.seen + {sequence}), id, cause)
  {
  }

  lemma SubmitCaused(c: Controller, objective: string, cause: Cause)
    requires Caused(c, cause)
    ensures Caused(UserSubmits(c, objective), cause)
  {
    var c' := UserSubmits(c, objective);
    forall k | 0 <= k < |c'.tasks| ensures TaskCaused(c', c'.tasks[k], cause) {
      if k < |c.tasks| { assert TaskCaused(c, c.tasks[k], cause); }
    }
    forall id | 0 <= id < |c'.chains| ensures ChainCaused(c'.chains[id], id, cause) {
      if id < |c.chains| { assert ChainCaused(c.chains[id], id, cause); }
    }
  }

  lemma MovedCaused(c: Controller, scope: Scope, refreshed: bool, cause: Cause)
    requires Caused(c, cause)
    ensures Caused(Next(c, ScopeMoves(scope, refreshed)), cause)
  {
    var c' := Next(c, ScopeMoves(scope, refreshed));
    forall k | 0 <= k < |c'.tasks| ensures TaskCaused(c', c'.tasks[k], cause) { assert TaskCaused(c, c.tasks[k], cause); }
  }

  lemma NextCaused(c: Controller, step: Step, cause: Cause)
    requires Bounded(c) && Caused(c, cause)
    requires (step.Receive? && c.current.Some? && c.current.value < |c.chains| && c.chains[c.current.value].run.Some?
              && DeliversFailure(step, c.chains[c.current.value].run.value)) ==>
               cause(c.current.value, c.chains[c.current.value].run.value)
    ensures Caused(Next(c, step), cause)
  {
    hide Caused, UserSubmits, Received, Continue, Fits, SoleRecovery, DistinctStaged, Free;
    match step {
      case Submit(objective) => SubmitCaused(c, objective, cause);
      case Cancel => StopCaused(c, cause);
      case Disconnect => StopCaused(c, cause);
      case ScopeMoves(scope, refreshed) => MovedCaused(c, scope, refreshed, cause);
      case Receive(d) => ReceivedCaused(c, d, cause);
      case Resume(index, reply) =>
        if index < |c.tasks| {
          WithoutBounded(c, index);
          WithoutCaused(c, index, cause);
          ContinueCaused(Without(c, index), c.tasks[index], reply, cause);
        }
    }
  }

  ghost function CauseAfter(scope: Scope, steps: seq<Step>): Cause {
    (id: ChainId, run: RunId) => Witnessed(scope, steps, id, run)
  }

  lemma NewWitness(scope: Scope, steps: seq<Step>, step: Step, id: ChainId, run: RunId)
    requires DeliversFailure(step, run) && BoundTo(scope, steps, id, run)
    ensures Witnessed(scope, steps + [step], id, run)
  {
    hide BoundTo, DeliversFailure;
    var all := steps + [step];
    assert all[..|steps|] == steps && all[|steps|] == step;
  }

  lemma {:induction false} RunCaused(scope: Scope, steps: seq<Step>)
    ensures Caused(Run(Recovery.Idle(scope), steps), CauseAfter(scope, steps))
  {
    hide Next, Caused, Witnessed, Bounded;
    if steps == [] {
      NothingCaused(scope, CauseAfter(scope, steps));
    } else {
      var n := |steps| - 1;
      var front, last := steps[..n], steps[n];
      var c := Run(Recovery.Idle(scope), front);
      assert front + [last] == steps;
      RunCaused(scope, front);
      RunBounded(scope, front);
      forall id, run | CauseAfter(scope, front)(id, run) ensures CauseAfter(scope, steps)(id, run) {
        WitnessedStays(scope, front, last, id, run);
      }
      CausedWider(c, CauseAfter(scope, front), CauseAfter(scope, steps));
      if last.Receive? && c.current.Some? && c.current.value < |c.chains| && c.chains[c.current.value].run.Some?
         && DeliversFailure(last, c.chains[c.current.value].run.value) {
        NewWitness(scope, front, last, c.current.value, c.chains[c.current.value].run.value);
      }
      NextCaused(c, last, CauseAfter(scope, steps));
    }
  }

  lemma NothingCaused(scope: Scope, cause: Cause)
    ensures Caused(Recovery.Idle(scope), cause)
  {
  }

  /** A continuation that acts automatically for a chain is one of a pending recovery of that chain. */
  lemma ActsWhilePending(c: Controller, step: Step, id: ChainId)
    requires Bounded(c) && DoneFor(Next(c, step).emitted, id) != DoneFor(c.emitted, id)
    ensures step.Resume? && step.index < |c.tasks| && c.tasks[step.index].id == id && Pending(c.tasks[step.index])
  {
    hide Received, Valid;
    match step {
      case Submit(objective) => DoneAppend(c.emitted, Submitted(|c.chains|, false), id);
      case Receive(d) => ReceivedFollows(c, d);
      case Resume(index, reply) => if index < |c.tasks| { PendingActs(Without(c, index), c.tasks[index], reply, id); }
      case _ =>
    }
  }

  lemma PendingActs(c: Controller, task: Task, reply: Reply, id: ChainId)
    requires task.id < |c.chains|
    ensures DoneFor(Continue(c, task, reply).emitted, id) != DoneFor(c.emitted, id) ==> task.id == id && Pending(task)
  {
    hide Settled, Valid;
    if task.UserSubmit? && reply.Answered? { SettledFollows(c, task.id, reply.accepted); }
    if task.Resubmit? && reply.Answered? {
      SettledFollows(With(c, task.id, c.chains[task.id].(recovering := false)), task.id, reply.accepted);
    }
    if task.ModelsAfter? && reply.Models? {
      var pick := FirstUntried(task.discovered, reply.configured, c.chains[task.id].tried);
      if pick.Some? { DoneAppend(c.emitted, Staged(task.id, pick.value), id); }
    }
    if task.Staging? { DoneAppend(c.emitted, Submitted(task.id, true), id); }
  }

  /**
    Over every run of durable events: whenever a model is staged or the objective
    resubmitted for a chain, the chain is bound to a run, and an earlier event completed
    that run, while the chain was bound to it, in a failure judged recoverable.
   */
  lemma ActsOnlyOnModelFailure(scope: Scope, steps: seq<Step>, step: Step, id: ChainId, judge: Judge)
    returns (k: nat, run: RunId)
    requires Durable(steps, judge)
    requires var c := Run(Recovery.Idle(scope), steps); DoneFor(Next(c, step).emitted, id) != DoneFor(c.emitted, id)
    ensures BoundTo(scope, steps, id, run)
    ensures k < |steps| && steps[k].Receive? && BoundTo(scope, steps[..k], id, run)
    ensures CompletesRecoverably(steps[k].delivery, run, judge)
  {
    hide Next, DoneFor, Bounded, Caused, BoundTo;
    var c := Run(Recovery.Idle(scope), steps);
    RunBounded(scope, steps);
    RunCaused(scope, steps);
    ActsWhilePending(c, step, id);
    TaskOf(c, step.index, CauseAfter(scope, steps));
    run := c.chains[id].run.value;
    assert BoundTo(scope, steps, id, run) by { NowBound(scope, steps, id, run); }
    assert Witnessed(scope, steps, id, run);
    k :| 0 <= k < |steps| && DeliversFailure(steps[k], run) && BoundTo(scope, steps[..k], id, run);
    FailureIsCompletion(steps[k].delivery, run, judge);
  }

  /** A chain's conclusion reports the runs it had retried, and there is no report without one. */
  lemma ConclusionReports(c: Controller, id: ChainId, session: Option<SessionId>, e: Event, judge: Judge)
    requires Accepts(c, id, session, e)
    ensures var c', retried := Next(c, Receive(DeliveryOf(session, e, judge))), c.chains[id].retriedRuns;
            var completes := (e.body.RunCompleted? && e.body.disposition.EndedCompleted?)
                             || (e.body.RunStateChanged? && e.body.state == Some(Completed));
            && (completes ==> c'.current.None?)
            && (completes && retried != {} ==> c'.reports == c.reports + [Report(id, retried)])
            && (!completes || retried == {} ==> c'.reports == c.reports)
  {
    hide Accepts;
    OfferedIsHeard(c, id, session, e, judge);
  }

  /** A staged recovery that resubmits adds the run it retries, and no other step of a chain's recovery does. */
  lemma ResubmissionRetries(c: Controller, index: nat, reply: Reply, id: ChainId)
    requires index < |c.tasks| && c.tasks[index].id == id && id < |c.chains|
    ensures var c' := Next(c, Resume(index, reply));
            var resubmits := c'.emitted == c.emitted + [Submitted(id, true)];
            && id < |c'.chains| && c'.reports == c.reports
            && (resubmits ==> c'.chains[id].retriedRuns
                                == c.chains[id].retriedRuns + (if c.chains[id].run.Some? then {c.chains[id].run.value} else {}))
            && (resubmits ==> var chain := c'.chains[id];
                              chain.run.None? && chain.failure.None? && chain.accepted.None? && chain.seen == {} && chain.recovering == c.chains[id].recovering)
            && (!resubmits ==> c'.chains[id].retriedRuns == c.chains[id].retriedRuns)
  {
    hide Valid, FirstUntried, Settled;
    var c0, c', task := Without(c, index), Next(c, Resume(index, reply)), c.tasks[index];
    assert c' == Continue(c0, task, reply);
    if c'.emitted == c.emitted + [Submitted(id, true)] { assert c'.emitted[|c.emitted|] == Submitted(id, true); }
    SettledRetries(c0, id, reply);
    SettledRetries(With(c0, id, c.chains[id].(recovering := false)), id, reply);
  }

  lemma SettledRetries(c: Controller, id: ChainId, reply: Reply)
    requires id < |c.chains|
    ensures reply.Answered? ==>
              var r := Settled(c, id, reply.accepted);
              |r.chains| == |c.chains| && r.chains[id].retriedRuns == c.chains[id].retriedRuns
              && r.reports == c.reports && r.emitted == c.emitted
  {
    hide Valid;
  }

  /**
    Over every run of durable events: each run reported as recovered had failed, while
    the chain was bound to it, in a failure judged recoverable.
   */
  lemma ReportedRunsFailed(scope: Scope, steps: seq<Step>, report: Report, run: RunId, judge: Judge) returns (k: nat)
    requires Durable(steps, judge)
    requires report in Run(Recovery.Idle(scope), steps).reports && run in report.runs
    ensures k < |steps| && steps[k].Receive? && BoundTo(scope, steps[..k], report.id, run)
    ensures CompletesRecoverably(steps[k].delivery, run, judge)
  {
    hide Next, BoundTo, ChainCaused, TaskCaused;
    RunCaused(scope, steps);
    assert Witnessed(scope, steps, report.id, run);
    k :| 0 <= k < |steps| && DeliversFailure(steps[k], run) && BoundTo(scope, steps[..k], report.id, run);
    FailureIsCompletion(steps[k].delivery, run, judge);
  }

  lemma NowBound(scope: Scope, steps: seq<Step>, id: ChainId, run: RunId)
    requires var c := Run(Recovery.Idle(scope), steps); id < |c.chains| && c.chains[id].run == Some(run)
    ensures BoundTo(scope, steps, id, run)
  {
  }

  lemma TaskOf(c: Controller, index: nat, cause: Cause)
    requires Caused(c, cause) && index < |c.tasks|
    ensures TaskCaused(c, c.tasks[index], cause)
  {
  }

  lemma FailureIsCompletion(d: Delivery, run: RunId, judge: Judge)
    requires IsEvent(d, judge) && d.signal == Ended(run, false, true)
    ensures CompletesRecoverably(d, run, judge)
  {
    var session: Option<SessionId>, e: Event :| d == DeliveryOf(session, e, judge);
    assert e.body.RunCompleted?;
  }

  /** Any other failed end of the bound run retires an accepted chain that is not recovering. */
  lemma OtherFailureRetires(c: Controller, id: ChainId, session: Option<SessionId>, e: Event, judge: Judge)
    requires Accepts(c, id, session, e)
    requires e.body.RunCompleted? && !e.body.disposition.EndedCompleted?
    requires !(e.body.disposition.EndedFailed? && judge(e.body.disposition))
    requires c.chains[id].accepted == Some(true) && !c.chains[id].recovering
    ensures Next(c, Receive(DeliveryOf(session, e, judge))).current.None?
  {
    hide Accepts;
    OfferedIsHeard(c, id, session, e, judge);
  }

  /** A model failure of the bound run starts a recovery, while no effect was seen and the budget lasts. */
  lemma ModelFailureStartsRecovery(c: Controller, id: ChainId, session: Option<SessionId>, e: Event, judge: Judge)
    requires Accepts(c, id, session, e)
    requires e.body.RunCompleted? && e.body.disposition.EndedFailed? && judge(e.body.disposition)
    requires c.chains[id].accepted == Some(true) && !c.chains[id].recovering && !c.chains[id].effects && c.chains[id].attempts < 2
    ensures var c' := Next(c, Receive(DeliveryOf(session, e, judge)));
            && c'.current == Some(id) && c'.tasks == c.tasks + [ModelsBefore(id)] && c'.emitted == c.emitted
            && id < |c'.chains| && c'.chains[id].recovering && c'.chains[id].run == c.chains[id].run
  {
    hide Accepts;
    OfferedIsHeard(c, id, session, e, judge);
  }

  // ----- binding

  /** A chain is bound exactly by a start of its own objective, of a run not heard of before, in its session. */
  lemma BindsExactly(c: Controller, id: ChainId, session: Option<SessionId>, e: Event, judge: Judge)
    requires Bounded(c) && id < |c.chains| && c.chains[id].run.None?
    ensures var c', chain := Next(c, Receive(DeliveryOf(session, e, judge))), c.chains[id];
            && id < |c'.chains|
            && (c'.chains[id].run.Some? <==>
                  && Offered(c, id, session, e) && e.body.RunStarted?
                  && e.body.objective == chain.objective && e.body.run !in c.knownRuns
                  && (chain.session.Some? ==> chain.session == session))
            && (c'.chains[id].run.Some? ==> c'.chains[id].run == Some(e.body.run) && c'.chains[id].session == session)
  {
    hide React, Valid, SoleRecovery, DistinctStaged, Fits, Offered;
    OfferedIsHeard(c, id, session, e, judge);
    var d := DeliveryOf(session, e, judge);
    assert Valid(c, id, false) ==> c.current == Some(id) by { ValidIsCurrent(c, id); }
    if c.current.Some? && Valid(c, c.current.value, false) {
      var bound := Bound(c.chains[c.current.value], d);
      ReactKeepsRuns(With(Note(c, d), c.current.value, bound.(seen := bound.seen + {d.sequence})), c.current.value, d.signal);
    }
  }

  lemma ValidIsCurrent(c: Controller, id: ChainId)
    ensures Valid(c, id, false) ==> c.current == Some(id)
  {
  }

  lemma ReactKeepsRuns(c: Controller, id: ChainId, signal: Signal)
    requires id < |c.chains|
    ensures var r := React(c, id, signal);
            |r.chains| == |c.chains| && forall x :: 0 <= x < |c.chains| ==> r.chains[x].run == c.chains[x].run && r.chains[x].session == c.chains[x].session
  {
    hide Valid;
  }

  // ----- where the controller acts

  /** No step changes what a chain captured, and a session once known stays. */
  predicate KeepsCapture(a: Controller, b: Controller) {
    |a.chains| <= |b.chains| && forall id :: 0 <= id < |a.chains| ==>
      && b.chains[id].scope == a.chains[id].scope && b.chains[id].objective == a.chains[id].objective
      && (a.chains[id].session.Some? ==> b.chains[id].session == a.chains[id].session)
  }

  lemma RecoverKeeps(c: Controller, id: ChainId)
    requires id < |c.chains|
    ensures KeepsCapture(c, Recover(c, id))
  {
    hide Valid;
  }

  lemma SettledKeeps(c: Controller, id: ChainId, accepted: bool)
    requires id < |c.chains|
    ensures KeepsCapture(c, Settled(c, id, accepted))
  {
    hide Recover;
    RecoverKeeps(With(c, id, c.chains[id].(accepted := Some(accepted))), id);
  }

  lemma ReactKeeps(c: Controller, id: ChainId, signal: Signal)
    requires id < |c.chains|
    ensures KeepsCapture(c, React(c, id, signal))
  {
    hide Recover;
    if signal.Ended? { RecoverKeeps(With(c, id, c.chains[id].(failure := Some(signal.recoverable))), id); }
  }

  lemma ContinueKeeps(c: Controller, task: Task, reply: Reply)
    requires task.id < |c.chains|
    ensures KeepsCapture(c, Continue(c, task, reply))
  {
    hide Settled, Valid, FirstUntried;
    if task.UserSubmit? && reply.Answered? { SettledKeeps(c, task.id, reply.accepted); }
    if task.Resubmit? && reply.Answered? {
      SettledKeeps(With(c, task.id, c.chains[task.id].(recovering := false)), task.id, reply.accepted);
    }
  }

  lemma ReceivedKeeps(c: Controller, d: Delivery)
    requires c.current.Some? ==> c.current.value < |c.chains|
    ensures KeepsCapture(c, Received(c, d))
  {
    hide React, Valid;
    if c.current.Some? && Valid(c, c.current.value, false) {
      var bound := Bound(c.chains[c.current.value], d);
      ReactKeeps(With(Note(c, d), c.current.value, bound.(seen := bound.seen + {d.sequence})), c.current.value, d.signal);
    }
  }

  lemma NextKeeps(c: Controller, step: Step)
    requires Bounded(c)
    ensures KeepsCapture(c, Next(c, step))
  {
    hide Received, Continue, Fits, SoleRecovery, DistinctStaged;
    match step {
      case Receive(d) => ReceivedKeeps(c, d);
      case Resume(index, reply) => if index < |c.tasks| { ContinueKeeps(Without(c, index), c.tasks[index], reply); }
      case _ =>
    }
  }

  lemma KeepsOn(a: Controller, b: Controller, c: Controller)
    requires KeepsCapture(a, b) && KeepsCapture(b, c)
    ensures KeepsCapture(a, c)
  {
  }

  lemma {:induction false} RunKeeps(c: Controller, steps: seq<Step>)
    requires Bounded(c)
    ensures Bounded(Run(c, steps)) && KeepsCapture(c, Run(c, steps))
  {
    hide Next, Bounded, KeepsCapture;
    if steps == [] {
      KeepsSelf(c);
    } else {
      var n := |steps| - 1;
      RunKeeps(c, steps[..n]);
      NextBounded(Run(c, steps[..n]), steps[n]);
      NextKeeps(Run(c, steps[..n]), steps[n]);
      KeepsOn(c, Run(c, steps[..n]), Run(c, steps));
    }
  }

  lemma KeepsSelf(c: Controller)
    ensures KeepsCapture(c, c)
  {
  }

  /**
    Over every run: when the controller acts for an objective, the shell is connected and
    attached with nothing running, on the same connection, repository, mode and view, with
    the draft and the model choice untouched, as when the objective was submitted, and in
    the session it was submitted in, if it was submitted in one.
   */
  lemma ActsWhereSubmitted(scope: Scope, before: seq<Step>, objective: string, middle: seq<Step>, step: Step)
    requires var id := |Run(Recovery.Idle(scope), before).chains|;
             var c := Run(Recovery.Idle(scope), before + [Submit(objective)] + middle);
             DoneFor(Next(c, step).emitted, id) != DoneFor(c.emitted, id)
    ensures var then_ := Run(Recovery.Idle(scope), before).scope;
            var now := Run(Recovery.Idle(scope), before + [Submit(objective)] + middle).scope;
            && now.connected && !now.attaching && now.attached && !now.running && now.view == "sessions"
            && now.epoch == then_.epoch && now.repository == then_.repository && now.mode == then_.mode
            && now.draftRevision == then_.draftRevision && now.modelRevision == then_.modelRevision
            && now.session.Some? && (then_.session.Some? ==> now.session == then_.session)
  {
    hide DoneFor, Bounded, Recovery.Received, Continue;
    var start := Run(Recovery.Idle(scope), before);
    var id, submitted := |start.chains|, Next(start, Submit(objective));
    RunBounded(scope, before);
    NextBounded(start, Submit(objective));
    FoldLeftConcat(Next, Recovery.Idle(scope), before, [Submit(objective)]);
    OneStep(Next, start, Submit(objective));
    FoldLeftConcat(Next, Recovery.Idle(scope), before + [Submit(objective)], middle);
    RunKeeps(submitted, middle);
    assert submitted.chains[id].scope == start.scope && submitted.chains[id].session == start.scope.session;
    ActsOnlyInScope(Run(submitted, middle), step, id);
  }

  /** A submission replaces the chain, and follows it only when connected, not attaching and on the sessions view. */
  lemma SubmissionStartsChain(c: Controller, objective: string)
    ensures var c' := Next(c, Submit(objective));
            && |c'.chains| == |c.chains| + 1 && c'.chains[..|c.chains|] == c.chains
            && (c'.current == Some(|c.chains|) <==> c.scope.connected && !c.scope.attaching && c.scope.view == "sessions")
            && (c'.current != Some(|c.chains|) ==> c'.current.None?)
            && c'.emitted == c.emitted + [Submitted(|c.chains|, false)]
            && c'.chains[|c.chains|].objective == objective && c'.chains[|c.chains|].scope == c.scope
            && c'.chains[|c.chains|].tried == (if c.scope.model.Some? then {c.scope.model.value} else {})
            && c'.chains[|c.chains|].run.None? && !c'.chains[|c.chains|].effects && c'.chains[|c.chains|].attempts == 0
            && c'.chains[|c.chains|].session == c.scope.session && !c'.chains[|c.chains|].recovering
            && c'.chains[|c.chains|].accepted.None? && c'.chains[|c.chains|].failure.None?
            && c'.chains[|c.chains|].seen == {} && c'.chains[|c.chains|].retriedRuns == {}
  {
  }

  /** The answer to a submission: a refusal or a failure of the command retires the chain, an acceptance is recorded. */
  lemma AnswerSettlesSubmission(c: Controller, index: nat, reply: Reply, id: ChainId)
    requires index < |c.tasks| && c.tasks[index] == UserSubmit(id) && id < |c.chains| && c.current == Some(id)
    ensures var c' := Next(c, Resume(index, reply));
            && (reply != Answered(true) ==> c'.current.None?)
            && (reply == Answered(true) ==> id < |c'.chains| && c'.chains[id].accepted == Some(true))
            && (reply == Answered(true) && c.chains[id].failure.None? ==> c'.current == Some(id))
  {
  }
}
