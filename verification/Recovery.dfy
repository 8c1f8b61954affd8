/**
  Model recovery: one user objective, and at most two automatic resubmissions on
  another model, interleaved with the session's event frames.

  The controller is an asynchronous machine.  Each await is a task in flight; the
  environment answers any of them, in any order, at any time, with any reply or a
  failure, and moves the visible scope in between.  A chain is named by its index;
  comparing references to the current chain is comparing indices.
 */
module Recovery {
  import opened Events
  import opened Folds

  /** What the shell shows when the controller looks. */
  datatype Scope = Scope(
    connected: bool, epoch: nat, session: Option<SessionId>, attached: bool, attaching: bool, running: bool,
    draftRevision: nat, modelRevision: nat, model: Option<string>, repository: Option<string>, mode: string, view: string)

  type ChainId = nat

  /** `failure` holds, once the bound run failed, whether that failure is a model-availability one. */
  datatype Chain = Chain(
    objective: string, scope: Scope, session: Option<SessionId>, run: Option<RunId>,
    accepted: Option<bool>, failure: Option<bool>, effects: bool, recovering: bool, attempts: nat,
    tried: set<string>, seen: set<nat>, retriedRuns: set<RunId>)

  /** The six await points. */
  datatype Task =
    | UserSubmit(id: ChainId)
    | ModelsBefore(id: ChainId)
    | Discovery(id: ChainId)
    | ModelsAfter(id: ChainId, discovered: seq<string>)
    | Staging(id: ChainId, candidate: string)
    | Resubmit(id: ChainId)

  predicate Recovers(task: Task) { !task.UserSubmit? }

  datatype Reply =
    | Threw
    | Answered(accepted: bool)
    | Models(pinned: Option<string>, configured: set<string>)
    | Discovered(available: seq<string>)
    | StageDone

  /** What the controller asks of the outside. */
  datatype Emission =
    | Submitted(id: ChainId, automatic: bool)
    | Staged(id: ChainId, model: string)

  /** The runs a concluded chain had retried, reported so that their failures can be put away. */
  datatype Report = Report(id: ChainId, runs: set<RunId>)

  datatype Lifecycle = RunEndedWell | RunWaits | RunHalted | RunOther

  /** What an event means to a chain; `run` is absent when the event carries no run field. */
  datatype Signal =
    | Neutral(run: Option<RunId>)
    | Started(started: RunId, objective: string)
    | StateMoved(moved: RunId, lifecycle: Lifecycle)
    | Ended(ended: RunId, completed: bool, recoverable: bool)
    | Effect(run: Option<RunId>)

  /** Whether a failure is one of model availability: a classification of its reason and code. */
  type Judge = Disposition -> bool

  function LifecycleOf(state: Option<Events.Lifecycle>): Lifecycle {
    if state.None? then RunOther
    else match state.value
      case Completed => RunEndedWell
      case WaitingForApproval => RunWaits
      case WaitingForUserInput => RunWaits
      case Paused => RunHalted
      case Cancelled => RunHalted
      case OtherState(tag) => if tag == "Unknown" then RunHalted else RunOther
      case _ => RunOther
  }

  /** What a durable event means to a chain: everything not known to be harmless is an effect. */
  function SignalOf(body: Body, judge: Judge): Signal {
    match body
    case RunStarted(run, objective) => Started(run, objective)
    case ModelStreamDelta(run, _, _) => Neutral(Some(run))
    case ModelRetrying(run, _, _, _, _) => Neutral(Some(run))
    case BudgetWarning(run, _, _, _) => Neutral(Some(run))
    case RunUsage(run, _) => Neutral(Some(run))
    case NoteAppended(run, _) => Neutral(if run == "" then None else Some(run))
    case Upkeep(run) => Neutral(run)
    case RunStateChanged(run, state) => StateMoved(run, LifecycleOf(state))
    case RunCompleted(run, d) => Ended(run, d.EndedCompleted?, d.EndedFailed? && judge(d))
    case ToolStarted(run, _, _) => Effect(Some(run))
    case ToolCompleted(run, _, _, _, _) => Effect(Some(run))
    case ToolUpdated(run, _, _) => Effect(Some(run))
    case ToolDenied(run, _) => Effect(Some(run))
    case QuestionAsked(_, run, _) => Effect(Some(run))
    case PatchProposed(run, _, _) => Effect(Some(run))
    case ApprovalRequested(_, _) => Effect(None)
    case ApprovalResolved(_) => Effect(None)
    case QuestionResolved(_, _) => Effect(None)
    case PendingPromptsChanged(_) => Effect(None)
    case Unrendered(run) => Effect(run)
  }

  function RunOf(signal: Signal): Option<RunId> {
    match signal
    case Neutral(run) => run
    case Started(run, _) => Some(run)
    case StateMoved(run, _) => Some(run)
    case Ended(run, _, _) => Some(run)
    case Effect(run) => run
  }

  datatype Delivery = Delivery(session: Option<SessionId>, sequence: nat, signal: Signal)

  /** A durable event as the controller hears it. */
  function DeliveryOf(session: Option<SessionId>, e: Event, judge: Judge): Delivery {
    Delivery(session, e.sequence, SignalOf(e.body, judge))
  }

  datatype Controller = Controller(
    current: Option<ChainId>, chains: seq<Chain>, sequences: map<Option<SessionId>, nat>, knownRuns: set<RunId>,
    tasks: seq<Task>, emitted: seq<Emission>, reports: seq<Report>, scope: Scope)

  datatype Step =
    | Submit(objective: string)
    | Cancel
    | Receive(delivery: Delivery)
    | Disconnect
    | ScopeMoves(scope: Scope, refreshed: bool)
    | Resume(index: nat, reply: Reply)

  // ----- the controller's operations

  function Stop(c: Controller): Controller { c.(current := None) }

  function With(c: Controller, id: ChainId, chain: Chain): (r: Controller)
    requires id < |c.chains|
    ensures |r.chains| == |c.chains|
  {
    c.(chains := c.chains[id := chain])
  }

  predicate InScope(chain: Chain, now: Scope, confirmed: bool) {
    && now.connected && now.epoch == chain.scope.epoch && !now.attaching
    && (now.session == chain.session || (!confirmed && chain.scope.session.None? && now.session.None?))
    && now.repository == chain.scope.repository && now.mode == chain.scope.mode && now.view == "sessions"
    && now.draftRevision == chain.scope.draftRevision && now.modelRevision == chain.scope.modelRevision
    && (!confirmed || (now.attached && !now.running && now.session.Some?))
  }

  predicate Valid(c: Controller, id: ChainId, confirmed: bool) {
    id < |c.chains| && c.current == Some(id) && InScope(c.chains[id], c.scope, confirmed)
  }

  function NewChain(objective: string, scope: Scope): Chain {
    Chain(objective, scope, scope.session, None, None, None, false, false, 0,
          if scope.model.Some? then {scope.model.value} else {}, {}, {})
  }

  function UserSubmits(c: Controller, objective: string): Controller {
    var id := |c.chains|;
    c.(current := if c.scope.connected && !c.scope.attaching && c.scope.view == "sessions" then Some(id) else None,
       chains := c.chains + [NewChain(objective, c.scope)],
       tasks := c.tasks + [UserSubmit(id)],
       emitted := c.emitted + [Submitted(id, false)])
  }

  /** Start a recovery of the current chain, or give it up. */
  function Recover(c: Controller, id: ChainId): Controller
    requires id < |c.chains|
  {
    var chain := c.chains[id];
    if chain.recovering || chain.failure.None? then c
    else if chain.effects || chain.attempts >= 2 || !chain.failure.value || !Valid(c, id, false) then Stop(c)
    else With(c, id, chain.(recovering := true)).(tasks := c.tasks + [ModelsBefore(id)])
  }

  /** A recovery that did not finish stops its chain, and only its own. */
  function Finally(c: Controller, id: ChainId): Controller {
    if c.current == Some(id) then Stop(c) else c
  }

  function Await(c: Controller, task: Task): Controller { c.(tasks := c.tasks + [task]) }

  /** The submission settled: record it, give up on refusal, recover a failure that already arrived. */
  function Settled(c: Controller, id: ChainId, accepted: bool): Controller
    requires id < |c.chains|
  {
    var c1 := With(c, id, c.chains[id].(accepted := Some(accepted)));
    if !accepted then Stop(c1)
    else if c1.chains[id].failure.Some? then Recover(c1, id)
    else c1
  }

  function FirstUntried(available: seq<string>, configured: set<string>, tried: set<string>): (r: Option<string>)
    ensures r.Some? ==> r.value in available && r.value in configured && r.value !in tried
    ensures r.Some? ==> (exists k :: 0 <= k < |available| && available[k] == r.value
                           && (forall j :: 0 <= j < k ==> available[j] !in configured || available[j] in tried))
    ensures r.None? ==> forall m :: m in available ==> m !in configured || m in tried
  {
    if available == [] then None
    else if available[0] in configured && available[0] !in tried then Some(available[0])
    else FirstUntried(available[1..], configured, tried)
  }

  /** Both model reads are back: stage the first configured candidate never tried. */
  function Choose(c: Controller, id: ChainId, discovered: seq<string>, configured: set<string>): Controller
    requires id < |c.chains|
  {
    var chain := c.chains[id];
    if !Valid(c, id, true) || chain.effects then Finally(c, id)
    else
      var pick := FirstUntried(discovered, configured, chain.tried);
      if pick.None? then Finally(c, id)
      else Await(With(c, id, chain.(tried := chain.tried + {pick.value}, attempts := chain.attempts + 1)),
                 Staging(id, pick.value)).(emitted := c.emitted + [Staged(id, pick.value)])
  }

  function Resubmits(c: Controller, id: ChainId): Controller
    requires id < |c.chains|
  {
    var chain := c.chains[id];
    if !Valid(c, id, true) || chain.effects then Finally(c, id)
    else
      Await(With(c, id, chain.(retriedRuns := if chain.run.Some? then chain.retriedRuns + {chain.run.value} else chain.retriedRuns,
                               run := None, failure := None, accepted := None, seen := {})),
            Resubmit(id)).(emitted := c.emitted + [Submitted(id, true)])
  }

  function Pinned(c: Controller, id: ChainId, pinned: Option<string>): Controller
    requires id < |c.chains|
  {
    if pinned.Some? then With(c, id, c.chains[id].(tried := c.chains[id].tried + {pinned.value})) else c
  }

  /** Continue a task with its reply; a reply of another shape is treated as a failure. */
  function Continue(c: Controller, task: Task, reply: Reply): Controller
    requires task.id < |c.chains|
  {
    var id := task.id;
    match task
    case UserSubmit(_) =>
      if reply.Answered? then (if c.current == Some(id) then Settled(c, id, reply.accepted) else c) else Finally(c, id)
    case ModelsBefore(_) =>
      if !reply.Models? then Finally(c, id)
      else
        var c1 := Pinned(c, id, reply.pinned);
        if Valid(c1, id, false) then Await(c1, Discovery(id)) else Finally(c1, id)
    case Discovery(_) =>
      if reply.Discovered? && Valid(c, id, false) then Await(c, ModelsAfter(id, reply.available)) else Finally(c, id)
    case ModelsAfter(_, discovered) =>
      if reply.Models? then Choose(c, id, discovered, reply.configured) else Finally(c, id)
    case Staging(_, _) => if reply.StageDone? then Resubmits(c, id) else Finally(c, id)
    case Resubmit(_) =>
      if !reply.Answered? then Finally(c, id)
      else if c.current != Some(id) then c
      else Settled(With(c, id, c.chains[id].(recovering := false)), id, reply.accepted)
  }

  function Resumed(c: Controller, index: nat, reply: Reply): Controller {
    if index >= |c.tasks| || c.tasks[index].id >= |c.chains| then c
    else Continue(c.(tasks := c.tasks[..index] + c.tasks[index + 1..]), c.tasks[index], reply)
  }

  function Baseline(c: Controller, session: Option<SessionId>): int {
    if session in c.sequences then c.sequences[session] else -1
  }

  /** Every delivery moves the session's baseline and the known runs, chain or no chain. */
  function Note(c: Controller, d: Delivery): Controller {
    c.(sequences := c.sequences[d.session := if d.session in c.sequences && c.sequences[d.session] > d.sequence
                                             then c.sequences[d.session] else d.sequence],
       knownRuns := if d.signal.Started? then c.knownRuns + {d.signal.started} else c.knownRuns)
  }

  /** Bind an unbound chain to the run that starts with its objective. */
  predicate Binds(chain: Chain, d: Delivery, known: set<RunId>) {
    d.signal.Started? && d.signal.objective == chain.objective && d.signal.started !in known
    && (chain.session.None? || chain.session == d.session)
  }

  /** The chain once it is bound, and whether the delivery is its own and new to it. */
  function Bound(chain: Chain, d: Delivery): Chain {
    if chain.run.None? && d.signal.Started? then chain.(session := d.session, run := Some(d.signal.started)) else chain
  }

  predicate Own(chain: Chain, d: Delivery) {
    chain.session == d.session && d.sequence !in chain.seen
    && (RunOf(d.signal).None? || RunOf(d.signal) == chain.run)
  }

  /** The bound run completed: the chain is over, and what it retried is reported. */
  function Complete(c: Controller, id: ChainId): Controller
    requires id < |c.chains|
  {
    var retried := c.chains[id].retriedRuns;
    Stop(c).(reports := if retried == {} then c.reports else c.reports + [Report(id, retried)])
  }

  /** React to a new event of the bound run. */
  function React(c: Controller, id: ChainId, signal: Signal): Controller
    requires id < |c.chains|
  {
    var chain := c.chains[id];
    match signal
    case Neutral(_) => c
    case Started(_, _) => c
    case StateMoved(_, lifecycle) =>
      (match lifecycle
       case RunEndedWell => Complete(c, id)
       case RunWaits => With(c, id, chain.(effects := true))
       case RunHalted => Stop(c)
       case RunOther => c)
    case Ended(_, completed, recoverable) =>
      if completed then Complete(c, id)
      else
        var c1 := With(c, id, chain.(failure := Some(recoverable)));
        if chain.accepted == Some(true) then Recover(c1, id) else c1
    case Effect(_) => With(c, id, chain.(effects := true))
  }

  /** Offer a new delivery to the current chain, given the runs known before it. */
  function Hear(c: Controller, id: ChainId, d: Delivery, known: set<RunId>): Controller
    requires id < |c.chains|
  {
    if c.chains[id].run.None? && !Binds(c.chains[id], d, known) then c
    else
      var bound := Bound(c.chains[id], d);
      if !Own(bound, d) then With(c, id, bound)
      else React(With(c, id, bound.(seen := bound.seen + {d.sequence})), id, d.signal)
  }

  function Received(c: Controller, d: Delivery): Controller {
    if c.current.None? || d.sequence <= Baseline(c, d.session) || !Valid(c, c.current.value, false) then Note(c, d)
    else Hear(Note(c, d), c.current.value, d, c.knownRuns)
  }

  function Next(c: Controller, step: Step): Controller {
    match step
    case Submit(objective) => UserSubmits(c, objective)
    case Cancel => Stop(c)
    case Receive(d) => Received(c, d)
    case Disconnect => Stop(c)
    case ScopeMoves(scope, refreshed) =>
      var c1 := c.(scope := scope);
      if refreshed && c.current.Some? && !Valid(c1, c.current.value, false) then Stop(c1) else c1
    case Resume(index, reply) => Resumed(c, index, reply)
  }

  function Run(c: Controller, steps: seq<Step>): Controller { FoldLeft(Next, c, steps) }

  function Idle(scope: Scope): Controller { Controller(None, [], map[], {}, [], [], [], scope) }
}
