/**
  Bulk replay owns a fresh transcript array and edits it in place; live events copy.
  Both carry out the same edits, so in-place replay refines the pure fold, and no
  array that was ever published is written again.
 */
module Replay {
  import opened Events
  import opened Projection
  import opened Retention
  import opened Store

  /** A mutable transcript array, shared by reference. */
  class Transcript {
    var items: seq<Item>

    constructor (items: seq<Item>)
      ensures this.items == items
    {
      this.items := items;
    }
  }

  method AppendTranscript(rows: Transcript, item: Item, replay: bool) returns (r: Transcript)
    modifies if replay then {rows} else {}
    ensures r.items == old(rows.items) + [item]
    ensures if replay then r == rows else fresh(r)
  {
    if !replay {
      r := new Transcript(rows.items + [item]);
    } else {
      rows.items := rows.items + [item];
      r := rows;
    }
  }

  method ReplaceTranscriptItem(rows: Transcript, index: nat, item: Item, replay: bool) returns (r: Transcript)
    requires index < |rows.items|
    modifies if replay then {rows} else {}
    ensures r.items == old(rows.items)[index := item]
    ensures if replay then r == rows else fresh(r)
  {
    if replay {
      r := rows;
    } else {
      r := new Transcript(rows.items);
    }
    r.items := r.items[index := item];
  }

  /** Finish the running tools of `run`; the live path copies at its first write only. */
  method SettleRunTools(rows: Transcript, run: RunId, replay: bool) returns (r: Transcript)
    modifies if replay then {rows} else {}
    ensures r.items == SettleTools(old(rows.items), run)
    ensures r == rows || (!replay && fresh(r))
    ensures !replay ==> rows.items == old(rows.items)
  {
    ghost var was := rows.items;
    r := rows;
    var index := 0;
    while index < |r.items|
      invariant 0 <= index <= |r.items| == |was|
      invariant r == rows || (!replay && fresh(r))
      invariant !replay ==> rows.items == was
      invariant forall k :: 0 <= k < index ==> r.items[k] == SettleItem(was[k], run)
      invariant forall k :: index <= k < |was| ==> r.items[k] == was[k]
    {
      var item := r.items[index];
      if RunsTool(item, run) {
        if r == rows && !replay {
          r := new Transcript(rows.items);
        }
        r.items := r.items[index := item.(status := ToolFinished)];
      }
      index := index + 1;
    }
    assert r.items == SettleTools(was, run);
  }

  // ----- one event, in the order it reads and writes the array

  /** The running card a completion belongs to is searched from the end; the first hit is rewritten. */
  method CompleteToolCard(rows: Transcript, run: RunId, tool: string, succeeded: bool, message: string, artifact: string,
                          replay: bool)
    returns (r: Transcript)
    modifies if replay then {rows} else {}
    ensures r.items == Perform(old(rows.items), ToolCompleteEdit(old(rows.items), run, tool, succeeded, message, artifact))
    ensures r == rows || (!replay && fresh(r))
    ensures !replay ==> rows.items == old(rows.items)
  {
    ghost var was := rows.items;
    r := rows;
    var index := |r.items|;
    while index > 0
      invariant 0 <= index <= |was| && r == rows && rows.items == was
      invariant forall j :: index <= j < |was| ==> !IsRunningTool(was[j], tool, run)
    {
      index := index - 1;
      var item := r.items[index];
      if IsRunningTool(item, tool, run) {
        r := ReplaceTranscriptItem(r, index, item.(
          status := if succeeded then ToolSuccess else ToolError,
          artifact := if artifact != "" then artifact else item.artifact,
          result := if !succeeded && message != "" then message else item.result), replay);
        return;
      }
    }
  }

  /** What the working row says after a tool, read off the array as it is now. */
  method AfterToolActivity(surface: Surface, rows: Transcript) returns (activity: Activity)
    ensures activity == AfterTool(surface, rows.items)
  {
    if surface.activity.Waiting() { return surface.activity; }
    var index := |rows.items|;
    while index > 0
      invariant 0 <= index <= |rows.items|
      invariant forall j :: index <= j < |rows.items| ==> !(surface.activeRun.Some? && RunsTool(rows.items[j], surface.activeRun.value))
    {
      index := index - 1;
      var item := rows.items[index];
      if surface.activeRun.Some? && RunsTool(item, surface.activeRun.value) {
        return UsingTool(if item.title != "" then item.title else if item.tool != "" then item.tool else "Tool");
      }
    }
    activity := Thinking;
  }

  method StreamText(surface: Surface, rows: Transcript, e: Event, run: RunId, text: string, thought: bool, replay: bool)
    returns (next: Surface, r: Transcript)
    requires e.body == ModelStreamDelta(run, text, thought)
    modifies if replay then {rows} else {}
    ensures Projection(next, r.items) == Apply(Projection(surface, old(rows.items)), e)
    ensures r == rows || fresh(r)
    ensures !replay ==> rows.items == old(rows.items)
  {
    if text == "" { return surface, rows; }
    var kind, model := StreamKindOf(thought), StreamModel(e, run);
    next := if IsForeign(surface, run) then surface else surface.(activity := Streaming);
    if rows.items != [] && Extends(rows.items[|rows.items| - 1], kind, run, model) {
      var last := rows.items[|rows.items| - 1];
      r := ReplaceTranscriptItem(rows, |rows.items| - 1, last.(streamed := last.streamed + text), replay);
    } else {
      r := AppendTranscript(rows, StreamItem(kind, run, e.sequence, text, model, e.occurredAt), replay);
    }
  }

  /** The card is written first; whether it is running is then read off the array that was written. */
  method StartTool(surface: Surface, rows: Transcript, e: Event, run: RunId, tool: string, title: string, replay: bool)
    returns (next: Surface, r: Transcript)
    requires e.body == ToolStarted(run, tool, title)
    modifies if replay then {rows} else {}
    ensures Projection(next, r.items) == Apply(Projection(surface, old(rows.items)), e)
    ensures r == rows || fresh(r)
    ensures !replay ==> rows.items == old(rows.items)
  {
    hide ToolParts;
    var (kind, shown) := ToolParts(tool, title, "Tool");
    var existing := RefinedTool(rows.items, tool, run);
    var found := existing < |rows.items|;
    if found {
      var previous := rows.items[existing];
      r := ReplaceTranscriptItem(rows, existing, previous.(title := shown, toolKind := kind), replay);
    } else {
      r := AppendTranscript(rows, ToolItem(e.sequence, tool, run, kind, shown, ToolRunning, "", "", e.occurredAt), replay);
    }
    if IsForeign(surface, run) || (found && r.items[existing].status != ToolRunning) {
      next := surface;
    } else {
      next := surface.(activity := UsingTool(if IsAcp(tool) then shown else tool));
    }
  }

  method CompleteTool(surface: Surface, rows: Transcript, e: Event, replay: bool) returns (next: Surface, r: Transcript)
    requires e.body.ToolCompleted?
    modifies if replay then {rows} else {}
    ensures Projection(next, r.items) == Apply(Projection(surface, old(rows.items)), e)
    ensures r == rows || fresh(r)
    ensures !replay ==> rows.items == old(rows.items)
  {
    hide ToolCompleteEdit, AfterTool;
    r := CompleteToolCard(rows, e.body.run, e.body.tool, e.body.succeeded, e.body.message, e.body.artifact, replay);
    next := surface;
    if !IsForeign(surface, e.body.run) {
      var activity := AfterToolActivity(surface, r);
      next := surface.(activity := activity);
    }
  }

  /** The card's previous text and status are kept aside before it is rewritten. */
  method UpdateTool(surface: Surface, rows: Transcript, e: Event, run: RunId, tool: string, title: string, replay: bool)
    returns (next: Surface, r: Transcript)
    requires e.body == ToolUpdated(run, tool, title)
    modifies if replay then {rows} else {}
    ensures Projection(next, r.items) == Apply(Projection(surface, old(rows.items)), e)
    ensures r == rows || fresh(r)
    ensures !replay ==> rows.items == old(rows.items)
  {
    hide ToolParts;
    var index := ToolIndex(rows.items, tool, run);
    if title == "" || index == |rows.items| { return surface, rows; }
    var (kind, shown) := ToolParts(tool, title, title);
    var item := rows.items[index];
    r := ReplaceTranscriptItem(rows, index, item.(title := shown, toolKind := kind), replay);
    next := if !IsForeign(surface, run) && item.status == ToolRunning && surface.activity.UsingTool?
               && (surface.activity.tool == item.title || surface.activity.tool == item.tool)
            then surface.(activity := UsingTool(shown)) else surface;
  }

  /** The run's cards settle in the array, then a row for its end is appended to that array. */
  method CompleteRun(surface: Surface, rows: Transcript, e: Event, run: RunId, disposition: Disposition, replay: bool)
    returns (next: Surface, r: Transcript)
    requires e.body == RunCompleted(run, disposition)
    modifies if replay then {rows} else {}
    ensures Projection(next, r.items) == Apply(Projection(surface, old(rows.items)), e)
    ensures r == rows || fresh(r)
    ensures !replay ==> rows.items == old(rows.items)
  {
    hide SettleTools, EndRow;
    r := SettleRunTools(rows, run, replay);
    var row := EndRow(surface, e, run, disposition);
    if row.Some? { r := AppendTranscript(r, row.value, replay); }
    next := CompleteStep(surface, run);
  }

  /** A transition of another run that settled nothing leaves the state as it is: the arrays are the same one. */
  method ChangeRunState(surface: Surface, rows: Transcript, e: Event, run: RunId, state: Option<Lifecycle>, replay: bool)
    returns (next: Surface, r: Transcript)
    requires e.body == RunStateChanged(run, state)
    modifies if replay then {rows} else {}
    ensures Projection(next, r.items) == Apply(Projection(surface, old(rows.items)), e)
    ensures r == rows || fresh(r)
    ensures !replay ==> rows.items == old(rows.items)
  {
    hide SettleTools, LifecycleActivity;
    var settled := rows;
    if Terminal(state) { settled := SettleRunTools(rows, run, replay); }
    if IsForeign(surface, run) {
      if settled == rows { return surface, rows; } else { return surface, settled; }
    }
    r := settled;
    next := if Terminal(state) then surface.(isRunning := false, activeRun := None, runState := None, activity := Idle)
            else surface.(activeRun := if surface.activeRun.Some? then surface.activeRun else if run != "" then Some(run) else None,
                          isRunning := surface.isRunning || state == Some(Running),
                          runState := state,
                          activity := LifecycleActivity(surface.activity, state));
  }

  method AskQuestion(surface: Surface, rows: Transcript, e: Event, id: string, run: RunId, prompts: seq<string>, replay: bool)
    returns (next: Surface, r: Transcript)
    requires e.body == QuestionAsked(id, run, prompts)
    modifies if replay then {rows} else {}
    ensures Projection(next, r.items) == Apply(Projection(surface, old(rows.items)), e)
    ensures r == rows || fresh(r)
    ensures !replay ==> rows.items == old(rows.items)
  {
    var key := QuestionKeyOf(id, e.sequence);
    var card := QuestionItem(key, id, run, e.sequence, prompts, e.occurredAt);
    var existing := FindFirst(rows.items, (item: Item) => IsQuestion(item, key));
    next := if surface.isRunning && !IsForeign(surface, run) then surface.(activity := WaitingOnQuestion) else surface;
    if existing < |rows.items| {
      r := ReplaceTranscriptItem(rows, existing, card, replay);
    } else {
      r := AppendTranscript(rows, card, replay);
    }
  }

  /** The rows whose meaning does not depend on the array: appended, replaced by key, or filtered out. */
  method PerformEdit(rows: Transcript, edit: Edit, replay: bool) returns (r: Transcript)
    requires Fits(edit, rows.items) && !edit.Settle?
    modifies if replay then {rows} else {}
    ensures r.items == Perform(old(rows.items), edit)
    ensures r == rows || fresh(r)
    ensures !replay ==> rows.items == old(rows.items)
  {
    match edit {
      case Keep =>
        r := rows;
      case Append(item) =>
        r := AppendTranscript(rows, item, replay);
      case Replace(index, item) =>
        r := ReplaceTranscriptItem(rows, index, item, replay);
      case DropApproval(id) =>
        r := new Transcript(Filter(rows.items, (item: Item) => !IsApproval(item, id)));
      case DropQuestion(key, note) =>
        r := new Transcript(Filter(rows.items, (item: Item) => !IsQuestion(item, key)) + [note]);
    }
  }

  /** The events whose surface does not look at the transcript. */
  predicate Rowless(body: Body) {
    body.RunStarted? || body.ModelRetrying? || body.ToolDenied? || body.BudgetWarning? || body.RunUsage?
    || body.ApprovalRequested? || body.ApprovalResolved? || body.PatchProposed? || body.NoteAppended?
    || body.PendingPromptsChanged? || body.Upkeep? || body.Unrendered?
  }

  lemma RowlessSurface(s: Surface, a: seq<Item>, b: seq<Item>, e: Event)
    requires Rowless(e.body)
    ensures SurfaceStep(s, a, e) == SurfaceStep(s, b, e)
    ensures !EditOf(s, a, e).Settle?
  {
  }

  method ApplyRow(surface: Surface, rows: Transcript, e: Event, replay: bool) returns (next: Surface, r: Transcript)
    requires Rowless(e.body)
    modifies if replay then {rows} else {}
    ensures Projection(next, r.items) == Apply(Projection(surface, old(rows.items)), e)
    ensures r == rows || fresh(r)
    ensures !replay ==> rows.items == old(rows.items)
  {
    hide EditOf, SurfaceStep, Perform, Rowless;
    RowlessSurface(surface, rows.items, [], e);
    r := PerformEdit(rows, EditOf(surface, rows.items, e), replay);
    RowlessSurface(surface, r.items, [], e);
    next := SurfaceStep(surface, r.items, e);
  }

  /** The asker is read off its card before the card leaves; what is left is a new array. */
  method ResolveQuestion(surface: Surface, rows: Transcript, e: Event, id: string, outcome: string)
    returns (next: Surface, r: Transcript)
    requires e.body == QuestionResolved(id, outcome)
    ensures Projection(next, r.items) == Apply(Projection(surface, rows.items), e)
    ensures fresh(r)
  {
    hide Filter;
    var askedBy := AskedBy(rows.items, id);
    next := if surface.activity.Waiting() && !IsForeign(surface, askedBy) then surface.(activity := Thinking) else surface;
    r := new Transcript(Filter(rows.items, (item: Item) => !IsQuestion(item, ById(id)))
                        + [QuestionResolvedItem(e.sequence, outcome, e.occurredAt)]);
  }

  method ApplyEvent(surface: Surface, rows: Transcript, e: Event, replay: bool)
    returns (next: Surface, r: Transcript)
    modifies if replay then {rows} else {}
    ensures Projection(next, r.items) == Apply(Projection(surface, old(rows.items)), e)
    ensures r == rows || fresh(r)
    ensures !replay ==> rows.items == old(rows.items)
  {
    hide Apply;
    match e.body {
      case ModelStreamDelta(run, text, thought) => next, r := StreamText(surface, rows, e, run, text, thought, replay);
      case ToolStarted(run, tool, title) => next, r := StartTool(surface, rows, e, run, tool, title, replay);
      case ToolCompleted(_, _, _, _, _) => next, r := CompleteTool(surface, rows, e, replay);
      case ToolUpdated(run, tool, title) => next, r := UpdateTool(surface, rows, e, run, tool, title, replay);
      case QuestionAsked(id, run, prompts) => next, r := AskQuestion(surface, rows, e, id, run, prompts, replay);
      case QuestionResolved(id, outcome) => next, r := ResolveQuestion(surface, rows, e, id, outcome);
      case RunCompleted(run, disposition) => next, r := CompleteRun(surface, rows, e, run, disposition, replay);
      case RunStateChanged(run, state) => next, r := ChangeRunState(surface, rows, e, run, state, replay);
      case _ => next, r := ApplyRow(surface, rows, e, replay);
    }
  }

  /** Replay from nothing into one owned array: the fold, without touching any existing array. */
  method RebuildFromEvents(events: seq<Event>) returns (surface: Surface, rows: Transcript)
    ensures fresh(rows)
    ensures Projection(surface, rows.items) == Replayed(events)
  {
    surface := EMPTY_SURFACE;
    rows := new Transcript([]);
    for i := 0 to |events|
      invariant fresh(rows)
      invariant Projection(surface, rows.items) == Replayed(events[..i])
    {
      assert events[..i + 1][..i] == events[..i];
      surface, rows := ApplyEvent(surface, rows, events[i], true);
    }
    assert events[..|events|] == events;
  }

  /**
    The store as it is published: every transcript array it ever showed stays in
    `published` with the contents it was published with.
   */
  class PublishedStore {
    var session: Option<SessionId>
    var surface: Surface
    var transcript: Transcript
    var events: seq<Event>
    var lastSequence: nat
    var gap: Option<Gap>
    ghost var published: map<Transcript, seq<Item>>

    ghost predicate Valid()
      reads this, published.Keys
    {
      && transcript in published
      && (forall rows :: rows in published ==> rows.items == published[rows])
      && Increasing(events)
      && (forall k :: 0 <= k < |events| ==> events[k].sequence <= lastSequence)
    }

    /** The abstract state this store shows. */
    ghost predicate Shows(st: State)
      reads this, transcript
    {
      && session == st.session
      && Projection(surface, transcript.items) == st.projection
      && events == st.events
      && lastSequence == st.lastSequence
      && gap == st.gap
    }

    constructor (session: SessionId)
      ensures Valid() && Shows(Reset(INITIAL_STATE, Some(session)))
    {
      this.session := Some(session);
      surface := EMPTY_SURFACE;
      var empty := new Transcript([]);
      transcript := empty;
      events, lastSequence, gap := [], 0, None;
      published := map[empty := []];
    }

    /** One live event; only this store's own fields move, never a published array. */
    method OnEvent(e: Event, ghost st: State)
      requires Valid() && Shows(st)
      modifies this
      ensures Valid() && Shows(MergeDurable(st, e))
      ensures forall a :: a in old(published) ==> a in published && published[a] == old(published)[a]
    {
      if e.sequence > lastSequence {
        AppendEvent(e, st);
      } else {
        var known := RetainsSequence(events, e.sequence);
        if !known {
          var merged := MergeEvents(events, [e]);
          MergedOrders(events, [e]);
          Rebuilt(merged);
        }
      }
    }

    method AppendEvent(e: Event, ghost st: State)
      requires Valid() && Shows(st) && e.sequence > lastSequence
      modifies this
      ensures Valid() && Shows(MergeDurable(st, e))
      ensures forall a :: a in old(published) ==> a in published && published[a] == old(published)[a]
    {
      hide Apply, Increasing, NextGap;
      IncreasingAppend(events, e);
      WidenGap(e, st);
      var next, rows := ApplyEvent(surface, transcript, e, false);
      Publish(rows);
      surface, events, lastSequence := next, events + [e], e.sequence;
    }

    /** A jump in the sequence opens a gap, or widens the open one. */
    method WidenGap(e: Event, ghost st: State)
      requires session == st.session && lastSequence == st.lastSequence && gap == st.gap
      modifies this`gap
      ensures gap == NextGap(st, e)
    {
      if session.Some? && lastSequence > 0 && e.sequence > lastSequence + 1 {
        gap := Some(Gap(session.value, if gap.Some? then Min(gap.value.after, lastSequence) else lastSequence,
                        e.sequence - 1));
      }
    }

    /** One history page. */
    method OnHistory(through: nat, page: seq<Event>, ghost st: State)
      requires Valid() && Shows(st)
      modifies this
      ensures Valid() && Shows(MergeHistory(st, through, page))
      ensures forall a :: a in old(published) ==> a in published && published[a] == old(published)[a]
    {
      var merged := MergeEvents(events, page);
      MergedOrders(events, page);
      Rebuilt(merged);
      lastSequence := Max(lastSequence, through);
    }

    method Rebuilt(merged: seq<Event>)
      requires Valid() && Increasing(merged)
      modifies this
      ensures Valid()
      ensures Projection(surface, transcript.items) == Replayed(merged) && events == merged
      ensures lastSequence == LastOf(merged) && gap == old(gap) && session == old(session)
      ensures forall a :: a in old(published) ==> a in published && published[a] == old(published)[a]
    {
      var next, rows := RebuildFromEvents(merged);
      surface := next;
      Publish(rows);
      events, lastSequence := merged, LastOf(merged);
    }

    method Publish(rows: Transcript)
      requires forall a :: a in published ==> a.items == published[a]
      requires rows == transcript || rows !in published
      requires rows == transcript ==> rows in published
      modifies this`transcript, this`published
      ensures transcript == rows && transcript in published
      ensures forall a :: a in published ==> a.items == published[a]
      ensures forall a :: a in old(published) ==> a in published && published[a] == old(published)[a]
      ensures forall a :: a in published ==> a in old(published) || a == rows
    {
      transcript := rows;
      published := published[rows := rows.items];
    }
  }
}
