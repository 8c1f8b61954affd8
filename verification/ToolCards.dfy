/**
  Tool cards: once a run has ended, none of its tools is shown as running, whatever
  else happens in the session, until a tool of that run starts again.
 */
module ToolCards {
  import opened Events
  import opened Folds
  import opened Projection

  predicate NoneRunning(items: seq<Item>, run: RunId) {
    forall k :: 0 <= k < |items| ==> !RunsTool(items[k], run)
  }

  /** The run is over: its completion, or a terminal transition. */
  predicate Finishes(e: Event, run: RunId) {
    (e.body.RunCompleted? && e.body.run == run)
    || (e.body.RunStateChanged? && e.body.run == run && Terminal(e.body.state))
  }

  predicate StartsTool(e: Event, run: RunId) { e.body.ToolStarted? && e.body.run == run }

  /** An edit after which no card of the run is running that was not. */
  predicate StartsNothing(items: seq<Item>, edit: Edit, run: RunId) {
    match edit
    case Append(item) => !RunsTool(item, run)
    case Replace(k, item) => k < |items| && (RunsTool(item, run) ==> RunsTool(items[k], run))
    case Settle(_, tail) => tail.Some? ==> !RunsTool(tail.value, run)
    case DropQuestion(_, note) => !RunsTool(note, run)
    case _ => true
  }

  lemma OthersStartNothing(s: Surface, items: seq<Item>, e: Event, run: RunId)
    requires !StartsTool(e, run)
    ensures StartsNothing(items, EditOf(s, items, e), run)
  {
  }

  lemma EditStaysIdle(items: seq<Item>, edit: Edit, run: RunId)
    requires Fits(edit, items) && StartsNothing(items, edit, run) && NoneRunning(items, run)
    ensures NoneRunning(Perform(items, edit), run)
  {
    match edit {
      case DropApproval(id) => FilterIdle(items, (item: Item) => !IsApproval(item, id), run);
      case DropQuestion(key, note) => FilterIdle(items, (item: Item) => !IsQuestion(item, key), run);
      case _ =>
    }
  }

  lemma FilterIdle(items: seq<Item>, keep: Item -> bool, run: RunId)
    requires NoneRunning(items, run)
    ensures NoneRunning(Filter(items, keep), run)
  {
    var kept := Filter(items, keep);
    forall k | 0 <= k < |kept| ensures !RunsTool(kept[k], run) { assert kept[k] in kept; }
  }

  lemma FinishingSettles(p: Projection, e: Event, run: RunId)
    requires Finishes(e, run)
    ensures NoneRunning(Apply(p, e).transcript, run)
  {
  }

  lemma StepStaysIdle(p: Projection, e: Event, run: RunId)
    requires NoneRunning(p.transcript, run) && !StartsTool(e, run)
    ensures NoneRunning(Apply(p, e).transcript, run)
  {
    hide SurfaceStep, Perform, StartsNothing, EditOf, NoneRunning;
    OthersStartNothing(p.surface, p.transcript, e, run);
    EditStaysIdle(p.transcript, EditOf(p.surface, p.transcript, e), run);
  }

  /** After a run ended, no card of it is running until one of its tools starts again. */
  lemma {:induction false} FinishedRunHasNoRunningTools(p: Projection, e: Event, more: seq<Event>, run: RunId)
    requires Finishes(e, run) && forall k :: 0 <= k < |more| ==> !StartsTool(more[k], run)
    ensures NoneRunning(Fold(p, [e] + more).transcript, run)
  {
    hide Apply, NoneRunning, Finishes, StartsTool;
    if more == [] {
      assert [e] + more == [e];
      OneStep(Apply, p, e);
      FinishingSettles(p, e, run);
    } else {
      var n := |more| - 1;
      FinishedRunHasNoRunningTools(p, e, more[..n], run);
      assert ([e] + more)[..1 + n] == [e] + more[..n];
      StepStaysIdle(Fold(p, [e] + more[..n]), more[n], run);
    }
  }
}
