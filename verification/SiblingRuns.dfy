/**
  Several runs share one session.  While one run is displayed, the events of its
  siblings move nothing of its lifecycle: they could be deleted from the stream.
 */
module SiblingRuns {
  import opened Events
  import opened Projection

  /** The run an event names; events such as approvals name none. */
  function Names(body: Body): RunId {
    match body
    case RunStarted(run, _) => run
    case ModelStreamDelta(run, _, _) => run
    case ToolStarted(run, _, _) => run
    case ToolCompleted(run, _, _, _, _) => run
    case ToolUpdated(run, _, _) => run
    case ModelRetrying(run, _, _, _, _) => run
    case ToolDenied(run, _) => run
    case BudgetWarning(run, _, _, _) => run
    case RunUsage(run, _) => run
    case QuestionAsked(_, run, _) => run
    case PatchProposed(run, _, _) => run
    case NoteAppended(run, _) => run
    case RunCompleted(run, _) => run
    case RunStateChanged(run, _) => run
    case _ => ""
  }

  predicate NamesSibling(e: Event, run: RunId) {
    Names(e.body) != "" && Names(e.body) != run
  }

  /** An event that ends the displayed run: its own terminal event, or one naming no run. */
  predicate Ends(e: Event, run: RunId) {
    !NamesSibling(e, run)
    && (e.body.RunCompleted? || (e.body.RunStateChanged? && Terminal(e.body.state)))
  }

  function WithoutSiblings(events: seq<Event>, run: RunId): seq<Event> {
    if events == [] then []
    else
      var rest := WithoutSiblings(events[..|events| - 1], run);
      if NamesSibling(events[|events| - 1], run) then rest else rest + [events[|events| - 1]]
  }

  /** What the surface says about the displayed run itself. */
  datatype OwnView = OwnView(
    activeRun: Option<RunId>, runState: Option<Lifecycle>, isRunning: bool, usage: Option<Usage>,
    pendingPrompts: seq<string>, activeObjective: Option<string>, objective: Option<string>)

  function ViewOf(s: Surface, run: RunId): OwnView {
    OwnView(s.activeRun, s.runState, s.isRunning, s.usage, s.pendingPrompts, s.activeObjective,
            if run in s.objectivesByRun then Some(s.objectivesByRun[run]) else None)
  }

  predicate Elsewhere(v: OwnView, run: RunId) {
    run != "" && v.activeRun.Some? && v.activeRun.value != "" && run != v.activeRun.value
  }

  function ViewStarted(v: OwnView, own: RunId, run: RunId, objective: string): OwnView {
    var kept := if run == own && run != "" && objective != "" then v.(objective := Some(objective)) else v;
    if Elsewhere(v, run) then kept
    else kept.(activeRun := if run != "" then Some(run) else v.activeRun, isRunning := true, runState := Some(Queued),
               activeObjective := if objective != "" then Some(objective) else v.activeObjective, usage := None)
  }

  function ViewCompleted(v: OwnView, own: RunId, run: RunId): OwnView {
    var kept := if run == own && run != "" then v.(objective := None) else v;
    if Elsewhere(v, run) then kept else kept.(isRunning := false, activeRun := None, runState := None)
  }

  function ViewMoved(v: OwnView, run: RunId, state: Option<Lifecycle>): OwnView {
    if Elsewhere(v, run) then v
    else if Terminal(state) then v.(isRunning := false, activeRun := None, runState := None)
    else v.(activeRun := if v.activeRun.Some? then v.activeRun else if run != "" then Some(run) else None,
            isRunning := v.isRunning || state == Some(Running), runState := state)
  }

  /** The view moves by itself: neither the transcript nor the activity feeds back into it. */
  function ViewStep(v: OwnView, own: RunId, e: Event): OwnView {
    match e.body
    case RunStarted(run, objective) => ViewStarted(v, own, run, objective)
    case RunUsage(run, tokens) => if Elsewhere(v, run) then v else v.(usage := Some(Usage(run, tokens)))
    case RunCompleted(run, _) => ViewCompleted(v, own, run)
    case RunStateChanged(run, state) => ViewMoved(v, run, state)
    case PendingPromptsChanged(prompts) => v.(pendingPrompts := prompts)
    case _ => v
  }

  lemma StartView(s: Surface, own: RunId, run: RunId, objective: string)
    ensures ViewOf(StartStep(s, run, objective), own) == ViewStarted(ViewOf(s, own), own, run, objective)
  {
  }

  lemma CompleteView(s: Surface, own: RunId, run: RunId)
    ensures ViewOf(CompleteStep(s, run), own) == ViewCompleted(ViewOf(s, own), own, run)
  {
  }

  lemma LifecycleView(s: Surface, own: RunId, run: RunId, state: Option<Lifecycle>)
    ensures ViewOf(LifecycleStep(s, run, state), own) == ViewMoved(ViewOf(s, own), run, state)
  {
    hide LifecycleActivity;
  }

  lemma ViewIsAutonomous(p: Projection, e: Event, own: RunId)
    ensures ViewOf(Apply(p, e).surface, own) == ViewStep(ViewOf(p.surface, own), own, e)
  {
    hide EditOf, Perform, AfterTool, AskedBy, ToolStartActivity, ToolUpdateActivity, IsForeign;
    hide StartStep, CompleteStep, LifecycleStep, ViewStarted, ViewCompleted, ViewMoved;
    var s := p.surface;
    match e.body {
      case RunStarted(run, objective) => StartView(s, own, run, objective);
      case RunCompleted(run, _) => CompleteView(s, own, run);
      case RunStateChanged(run, state) => LifecycleView(s, own, run, state);
      case RunUsage(run, tokens) => ForeignIsElsewhere(s, own, run);
      case _ =>
    }
  }

  lemma ForeignIsElsewhere(s: Surface, own: RunId, run: RunId)
    ensures IsForeign(s, run) <==> Elsewhere(ViewOf(s, own), run)
  {
  }

  lemma SiblingEventIgnored(v: OwnView, e: Event, run: RunId)
    requires run != "" && v.activeRun == Some(run) && NamesSibling(e, run)
    ensures ViewStep(v, run, e) == v
  {
  }

  lemma StaysDisplayed(v: OwnView, e: Event, run: RunId)
    requires run != "" && v.activeRun == Some(run) && !Ends(e, run)
    ensures ViewStep(v, run, e).activeRun == Some(run)
  {
  }

  lemma {:induction false} DisplayedThroughout(p: Projection, events: seq<Event>, run: RunId)
    requires run != "" && p.surface.activeRun == Some(run)
    requires forall k :: 0 <= k < |events| ==> !Ends(events[k], run)
    ensures Fold(p, events).surface.activeRun == Some(run)
  {
    hide Apply, ViewStep;
    if events != [] {
      var n := |events| - 1;
      DisplayedThroughout(p, events[..n], run);
      ViewIsAutonomous(Fold(p, events[..n]), events[n], run);
      StaysDisplayed(ViewOf(Fold(p, events[..n]).surface, run), events[n], run);
    }
  }

  /**
    While `run` is displayed, deleting every event that names another run changes
    nothing of the view of `run`, at any point up to and including its own end.
   */
  lemma {:induction false} SiblingsDoNotInterfere(p: Projection, events: seq<Event>, run: RunId)
    requires run != "" && p.surface.activeRun == Some(run)
    requires forall k :: 0 <= k < |events| - 1 ==> !Ends(events[k], run)
    ensures ViewOf(Fold(p, events).surface, run) == ViewOf(Fold(p, WithoutSiblings(events, run)).surface, run)
  {
    hide Apply, ViewStep;
    if events != [] {
      var n := |events| - 1;
      var before, e := events[..n], events[n];
      SiblingsDoNotInterfere(p, before, run);
      DisplayedThroughout(p, before, run);
      var kept := WithoutSiblings(before, run);
      ViewIsAutonomous(Fold(p, before), e, run);
      if NamesSibling(e, run) {
        SiblingEventIgnored(ViewOf(Fold(p, before).surface, run), e, run);
      } else {
        assert (kept + [e])[..|kept|] == kept;
        ViewIsAutonomous(Fold(p, kept), e, run);
      }
    }
  }
}
