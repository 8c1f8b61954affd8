/**
  Bounded recovery: over every interleaving of replies, frames and scope changes, an
  objective causes at most two automatic resubmissions, at most one recovery of a
  chain is in flight, and the models staged for it are pairwise distinct and never
  the one first selected.
 */
module RecoveryBounds {
  import opened Events
  import opened Recovery

  /** Automatic resubmissions emitted for a chain. */
  function Resubmissions(emitted: seq<Emission>, id: ChainId): nat {
    if emitted == [] then 0
    else Resubmissions(emitted[..|emitted| - 1], id) + (if emitted[|emitted| - 1] == Submitted(id, true) then 1 else 0)
  }

  predicate Free(tasks: seq<Task>, id: ChainId) {
    forall k :: 0 <= k < |tasks| && Recovers(tasks[k]) ==> tasks[k].id != id
  }

  /** No chain has two recoveries in flight. */
  predicate SoleRecovery(tasks: seq<Task>) {
    forall i, j :: 0 <= i < j < |tasks| && Recovers(tasks[i]) && Recovers(tasks[j]) ==> tasks[i].id != tasks[j].id
  }

  predicate DistinctStaged(emitted: seq<Emission>) {
    forall i, j :: 0 <= i < j < |emitted| && emitted[i].Staged? && emitted[j].Staged? && emitted[i].id == emitted[j].id
      ==> emitted[i].model != emitted[j].model
  }

  predicate Early(task: Task) { task.ModelsBefore? || task.Discovery? || task.ModelsAfter? }

  predicate StagingNow(tasks: seq<Task>, id: ChainId) {
    exists k :: 0 <= k < |tasks| && tasks[k].Staging? && tasks[k].id == id
  }

  predicate TasksFit(tasks: seq<Task>, id: ChainId, chain: Chain) {
    forall k :: 0 <= k < |tasks| && tasks[k].id == id ==>
      (Recovers(tasks[k]) ==> chain.recovering) && (Early(tasks[k]) ==> chain.attempts < 2)
  }

  predicate ModelsFit(emitted: seq<Emission>, id: ChainId, chain: Chain) {
    && (chain.scope.model.Some? ==> chain.scope.model.value in chain.tried)
    && forall k :: 0 <= k < |emitted| && emitted[k].Staged? && emitted[k].id == id ==>
         emitted[k].model in chain.tried && chain.scope.model != Some(emitted[k].model)
  }

  /** A staging in flight is an attempt whose resubmission has not been sent yet. */
  predicate Fits(emitted: seq<Emission>, tasks: seq<Task>, id: ChainId, chain: Chain) {
    && chain.attempts <= 2
    && Resubmissions(emitted, id) + (if StagingNow(tasks, id) then 1 else 0) <= chain.attempts
    && TasksFit(tasks, id, chain)
    && ModelsFit(emitted, id, chain)
  }

  predicate Bounded(c: Controller) {
    && (c.current.Some? ==> c.current.value < |c.chains|)
    && (forall k :: 0 <= k < |c.tasks| ==> c.tasks[k].id < |c.chains|)
    && (forall k :: 0 <= k < |c.emitted| ==> c.emitted[k].id < |c.chains|)
    && SoleRecovery(c.tasks)
    && DistinctStaged(c.emitted)
    && (forall id :: 0 <= id < |c.chains| ==> Fits(c.emitted, c.tasks, id, c.chains[id]))
  }

  // ----- elementary moves

  /** Rewriting a chain that keeps its budget, its models and its recovery flag. */
  lemma WithBounded(c: Controller, id: ChainId, chain: Chain)
    requires Bounded(c) && id < |c.chains|
    requires chain.attempts == c.chains[id].attempts && chain.scope == c.chains[id].scope
    requires c.chains[id].tried <= chain.tried
    requires chain.recovering || !c.chains[id].recovering || Free(c.tasks, id)
    ensures Bounded(With(c, id, chain))
  {
    hide Resubmissions, StagingNow;
    assert Fits(c.emitted, c.tasks, id, c.chains[id]);
  }

  lemma AwaitFits(emitted: seq<Emission>, tasks: seq<Task>, task: Task, id: ChainId, chain: Chain)
    requires Fits(emitted, tasks, id, chain)
    requires task.id == id ==> !task.Staging? && (Recovers(task) ==> chain.recovering) && (Early(task) ==> chain.attempts < 2)
    ensures Fits(emitted, tasks + [task], id, chain)
  {
    hide Resubmissions;
    var all := tasks + [task];
    assert StagingNow(all, id) ==> StagingNow(tasks, id) by {
      if StagingNow(all, id) {
        var k :| 0 <= k < |all| && all[k].Staging? && all[k].id == id;
        assert all[k] == tasks[k];
      }
    }
  }

  lemma AwaitBounded(c: Controller, task: Task)
    requires Bounded(c) && task.id < |c.chains| && !task.Staging?
    requires Recovers(task) ==> Free(c.tasks, task.id) && c.chains[task.id].recovering
    requires Early(task) ==> c.chains[task.id].attempts < 2
    ensures Bounded(Await(c, task))
  {
    hide Fits;
    forall id | 0 <= id < |c.chains| ensures Fits(c.emitted, c.tasks + [task], id, c.chains[id]) {
      AwaitFits(c.emitted, c.tasks, task, id, c.chains[id]);
    }
  }

  lemma ResubmissionsAppend(emitted: seq<Emission>, e: Emission, id: ChainId)
    ensures Resubmissions(emitted + [e], id)
         == Resubmissions(emitted, id) + (if e == Submitted(id, true) then 1 else 0)
  {
    assert (emitted + [e])[..|emitted|] == emitted;
  }

  // ----- the controller's operations

  lemma {:induction false} NoResubmissions(emitted: seq<Emission>, id: ChainId)
    requires forall k :: 0 <= k < |emitted| ==> emitted[k].id < id
    ensures Resubmissions(emitted, id) == 0
  {
    if emitted != [] {
      NoResubmissions(emitted[..|emitted| - 1], id);
    }
  }

  lemma SubmitBounded(c: Controller, objective: string)
    requires Bounded(c)
    ensures Bounded(UserSubmits(c, objective))
  {
    var n := |c.chains|;
    var c' := UserSubmits(c, objective);
    forall id | 0 <= id <= n ensures Fits(c'.emitted, c'.tasks, id, c'.chains[id]) {
      ResubmissionsAppend(c.emitted, Submitted(n, false), id);
      if id < n {
        assert Fits(c.emitted, c.tasks, id, c.chains[id]);
        AwaitFits(c.emitted, c.tasks, UserSubmit(n), id, c.chains[id]);
      } else {
        NoResubmissions(c.emitted, n);
      }
    }
  }

  lemma RecoverBounded(c: Controller, id: ChainId)
    requires Bounded(c) && id < |c.chains|
    ensures Bounded(Recover(c, id))
  {
    hide Fits;
    var chain := c.chains[id];
    if !chain.recovering && chain.failure.Some? && !chain.effects && chain.attempts < 2 && chain.failure.value
       && Valid(c, id, false) {
      IdleIsFree(c, id);
      WithBounded(c, id, chain.(recovering := true));
      AwaitBounded(With(c, id, chain.(recovering := true)), ModelsBefore(id));
    }
  }

  lemma IdleIsFree(c: Controller, id: ChainId)
    requires Bounded(c) && id < |c.chains| && !c.chains[id].recovering
    ensures Free(c.tasks, id)
  {
    assert Fits(c.emitted, c.tasks, id, c.chains[id]);
  }

  lemma SettledBounded(c: Controller, id: ChainId, accepted: bool)
    requires Bounded(c) && id < |c.chains|
    ensures Bounded(Settled(c, id, accepted))
  {
    hide Fits;
    WithBounded(c, id, c.chains[id].(accepted := Some(accepted)));
    RecoverBounded(With(c, id, c.chains[id].(accepted := Some(accepted))), id);
  }

  lemma ChooseBounded(c: Controller, id: ChainId, discovered: seq<string>, configured: set<string>)
    requires Bounded(c) && id < |c.chains| && Free(c.tasks, id)
    requires c.chains[id].recovering && c.chains[id].attempts < 2
    ensures Bounded(Choose(c, id, discovered, configured))
  {
    hide Fits, SoleRecovery, DistinctStaged, FirstUntried, Free;
    var chain := c.chains[id];
    var pick := FirstUntried(discovered, configured, chain.tried);
    if Valid(c, id, true) && !chain.effects && pick.Some? {
      var c' := Choose(c, id, discovered, configured);
      FirstUntriedIsNew(discovered, configured, chain.tried);
      assert Fits(c.emitted, c.tasks, id, chain);
      forall x | 0 <= x < |c.chains| ensures Fits(c'.emitted, c'.tasks, x, c'.chains[x]) {
        assert Fits(c.emitted, c.tasks, x, c.chains[x]);
        if x == id { StagedFits(c.emitted, c.tasks, id, chain, pick.value); }
        else { OthersStagedFits(c.emitted, c.tasks, x, c.chains[x], id, pick.value); }
      }
      StagedDistinct(c.emitted, c.tasks, id, chain, pick.value);
      OneMoreRecovery(c.tasks, Staging(id, pick.value));
    }
  }

  lemma FirstUntriedIsNew(discovered: seq<string>, configured: set<string>, tried: set<string>)
    ensures var pick := FirstUntried(discovered, configured, tried); pick.Some? ==> pick.value !in tried
  {
  }

  lemma StagedFits(emitted: seq<Emission>, tasks: seq<Task>, id: ChainId, chain: Chain, model: string)
    requires Fits(emitted, tasks, id, chain) && Free(tasks, id) && chain.recovering && chain.attempts < 2 && model !in chain.tried
    ensures Fits(emitted + [Staged(id, model)], tasks + [Staging(id, model)], id,
                 chain.(tried := chain.tried + {model}, attempts := chain.attempts + 1))
  {
    hide Resubmissions;
    ResubmissionsAppend(emitted, Staged(id, model), id);
    assert !StagingNow(tasks, id);
  }

  lemma OthersStagedFits(emitted: seq<Emission>, tasks: seq<Task>, x: ChainId, chain: Chain, id: ChainId, model: string)
    requires Fits(emitted, tasks, x, chain) && x != id
    ensures Fits(emitted + [Staged(id, model)], tasks + [Staging(id, model)], x, chain)
  {
    hide Resubmissions, StagingNow;
    ResubmissionsAppend(emitted, Staged(id, model), x);
    AwaitFits(emitted, tasks, Staging(id, model), x, chain);
  }

  lemma StagedDistinct(emitted: seq<Emission>, tasks: seq<Task>, id: ChainId, chain: Chain, model: string)
    requires DistinctStaged(emitted) && Fits(emitted, tasks, id, chain) && model !in chain.tried
    ensures DistinctStaged(emitted + [Staged(id, model)])
  {
    hide Resubmissions, StagingNow, TasksFit;
  }

  lemma OneMoreRecovery(tasks: seq<Task>, task: Task)
    requires SoleRecovery(tasks) && Free(tasks, task.id)
    ensures SoleRecovery(tasks + [task])
  {
  }

  lemma ResubmitsBounded(c: Controller, id: ChainId)
    requires Bounded(c) && id < |c.chains| && Free(c.tasks, id)
    requires c.chains[id].recovering && Resubmissions(c.emitted, id) < c.chains[id].attempts
    ensures Bounded(Resubmits(c, id))
  {
    var chain := c.chains[id];
    if Valid(c, id, true) && !chain.effects {
      var c' := Resubmits(c, id);
      assert Fits(c.emitted, c.tasks, id, chain);
      forall x | 0 <= x < |c.chains| ensures Fits(c'.emitted, c'.tasks, x, c'.chains[x]) {
        ResubmissionsAppend(c.emitted, Submitted(id, true), x);
        AwaitFits(c.emitted, c.tasks, Resubmit(id), x, c.chains[x]);
        if x == id {
          assert !StagingNow(c.tasks, id);
          assert !StagingNow(c'.tasks, id);
        }
      }
    }
  }

  /** The controller without one of its tasks. */
  function Without(c: Controller, index: nat): Controller
    requires index < |c.tasks|
  {
    c.(tasks := c.tasks[..index] + c.tasks[index + 1..])
  }

  lemma WithoutBounded(c: Controller, index: nat)
    requires Bounded(c) && index < |c.tasks|
    ensures Bounded(Without(c, index))
    ensures Recovers(c.tasks[index]) ==> Free(Without(c, index).tasks, c.tasks[index].id)
    ensures Recovers(c.tasks[index]) ==> c.chains[c.tasks[index].id].recovering
    ensures Early(c.tasks[index]) ==> c.chains[c.tasks[index].id].attempts < 2
    ensures c.tasks[index].Staging? ==>
              Resubmissions(c.emitted, c.tasks[index].id) < c.chains[c.tasks[index].id].attempts
  {
    var c', task := Without(c, index), c.tasks[index];
    assert forall k :: 0 <= k < |c'.tasks| ==> c'.tasks[k] == c.tasks[if k < index then k else k + 1];
    assert Fits(c.emitted, c.tasks, task.id, c.chains[task.id]);
    forall id | 0 <= id < |c.chains| ensures Fits(c.emitted, c'.tasks, id, c.chains[id]) {
      assert Fits(c.emitted, c.tasks, id, c.chains[id]);
      if StagingNow(c'.tasks, id) {
        var k :| 0 <= k < |c'.tasks| && c'.tasks[k].Staging? && c'.tasks[k].id == id;
        assert c.tasks[if k < index then k else k + 1] == c'.tasks[k];
      }
    }
  }

  lemma ContinueBounded(c: Controller, task: Task, reply: Reply)
    requires Bounded(c) && task.id < |c.chains|
    requires Recovers(task) ==> Free(c.tasks, task.id) && c.chains[task.id].recovering
    requires Early(task) ==> c.chains[task.id].attempts < 2
    requires task.Staging? ==> Resubmissions(c.emitted, task.id) < c.chains[task.id].attempts
    ensures Bounded(Continue(c, task, reply))
  {
    hide Fits, Settled, Choose, Resubmits, SoleRecovery, DistinctStaged;
    var id := task.id;
    match task {
      case UserSubmit(_) =>
        if reply.Answered? { SettledBounded(c, id, reply.accepted); }
      case ModelsBefore(_) =>
        if reply.Models? {
          if reply.pinned.Some? { WithBounded(c, id, c.chains[id].(tried := c.chains[id].tried + {reply.pinned.value})); }
          var c1 := Pinned(c, id, reply.pinned);
          AwaitBounded(c1, Discovery(id));
        }
      case Discovery(_) =>
        if reply.Discovered? { AwaitBounded(c, ModelsAfter(id, reply.available)); }
      case ModelsAfter(_, discovered) =>
        if reply.Models? { ChooseBounded(c, id, discovered, reply.configured); }
      case Staging(_, _) =>
        ResubmitsBounded(c, id);
      case Resubmit(_) =>
        WithBounded(c, id, c.chains[id].(recovering := false));
        if reply.Answered? { SettledBounded(With(c, id, c.chains[id].(recovering := false)), id, reply.accepted); }
    }
  }

  lemma ReactBounded(c: Controller, id: ChainId, signal: Signal)
    requires Bounded(c) && id < |c.chains|
    ensures Bounded(React(c, id, signal))
  {
    hide Fits;
    WithBounded(c, id, c.chains[id].(effects := true));
    if signal.Ended? {
      var failed := c.chains[id].(failure := Some(signal.recoverable));
      WithBounded(c, id, failed);
      RecoverBounded(With(c, id, failed), id);
    }
  }

  lemma ReceivedBounded(c: Controller, d: Delivery)
    requires Bounded(c)
    ensures Bounded(Received(c, d))
  {
    hide Fits, React, SoleRecovery, DistinctStaged;
    if c.current.Some? {
      var noted, id := Note(c, d), c.current.value;
      assert Bounded(noted);
      var bound := Bound(c.chains[id], d);
      WithBounded(noted, id, bound);
      WithBounded(noted, id, bound.(seen := bound.seen + {d.sequence}));
      ReactBounded(With(noted, id, bound.(seen := bound.seen + {d.sequence})), id, d.signal);
    }
  }

  lemma NextBounded(c: Controller, step: Step)
    requires Bounded(c)
    ensures Bounded(Next(c, step))
  {
    hide Fits, SoleRecovery, DistinctStaged, UserSubmits, Received, Continue;
    match step {
      case Submit(objective) => SubmitBounded(c, objective);
      case Receive(d) => ReceivedBounded(c, d);
      case Resume(index, reply) =>
        if index < |c.tasks| {
          WithoutBounded(c, index);
          ContinueBounded(Without(c, index), c.tasks[index], reply);
        }
      case _ =>
    }
  }

  lemma {:induction false} RunBounded(scope: Scope, steps: seq<Step>)
    ensures Bounded(Run(Recovery.Idle(scope), steps))
  {
    hide Next;
    if steps != [] {
      var n := |steps| - 1;
      RunBounded(scope, steps[..n]);
      NextBounded(Run(Recovery.Idle(scope), steps[..n]), steps[n]);
    }
  }

  /** At most two automatic resubmissions per objective, whatever the interleaving. */
  lemma AtMostTwoResubmissions(scope: Scope, steps: seq<Step>, id: ChainId)
    ensures Resubmissions(Run(Recovery.Idle(scope), steps).emitted, id) <= 2
  {
    var c := Run(Recovery.Idle(scope), steps);
    RunBounded(scope, steps);
    if id < |c.chains| {
      assert Fits(c.emitted, c.tasks, id, c.chains[id]);
    } else {
      NoResubmissions(c.emitted, id);
    }
  }

  /** At most one recovery of a chain is in flight. */
  lemma OneRecoveryInFlight(scope: Scope, steps: seq<Step>, i: nat, j: nat)
    requires i < j < |Run(Recovery.Idle(scope), steps).tasks|
    requires Recovers(Run(Recovery.Idle(scope), steps).tasks[i]) && Recovers(Run(Recovery.Idle(scope), steps).tasks[j])
    ensures Run(Recovery.Idle(scope), steps).tasks[i].id != Run(Recovery.Idle(scope), steps).tasks[j].id
  {
    RunBounded(scope, steps);
  }

  /** The models staged for a chain are pairwise distinct, and none is the model first selected. */
  lemma FreshModels(scope: Scope, steps: seq<Step>, i: nat)
    requires i < |Run(Recovery.Idle(scope), steps).emitted| && Run(Recovery.Idle(scope), steps).emitted[i].Staged?
    ensures var c := Run(Recovery.Idle(scope), steps);
            var staged := c.emitted[i];
            && staged.id < |c.chains|
            && c.chains[staged.id].scope.model != Some(staged.model)
            && forall j :: 0 <= j < |c.emitted| && j != i && c.emitted[j].Staged? && c.emitted[j].id == staged.id
                 ==> c.emitted[j].model != staged.model
  {
    RunBounded(scope, steps);
    var c := Run(Recovery.Idle(scope), steps);
    assert Fits(c.emitted, c.tasks, c.emitted[i].id, c.chains[c.emitted[i].id]);
  }
}
