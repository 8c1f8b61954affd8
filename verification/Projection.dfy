/**
  The session projection: how one durable event moves the transcript and the run
  lifecycle on screen.

  Every event changes the transcript by exactly one edit.  The edit is a value
  (`Edit`), so that the copying live path and the in-place bulk replay can be
  compared: `Perform` is what the edit means, and `Replay.dfy` carries it out on a
  mutable array.
 */
module Projection {
  import opened Events
  import opened Folds

  /** Everything a rebuild resets, except the transcript. */
  datatype Surface = Surface(
    activeRun: Option<RunId>,
    isRunning: bool,
    runState: Option<Lifecycle>,
    pendingPrompts: seq<string>,
    activity: Activity,
    usage: Option<Usage>,
    activeObjective: Option<string>,
    objectivesByRun: map<RunId, string>)

  const EMPTY_SURFACE := Surface(None, false, None, [], Idle, None, None, map[])

  datatype Projection = Projection(surface: Surface, transcript: seq<Item>)

  const EMPTY_PROJECTION := Projection(EMPTY_SURFACE, [])

  // ----- transcript edits

  datatype Edit =
    | Keep
    | Append(item: Item)
    | Replace(index: nat, item: Item)
    | Settle(run: RunId, tail: Option<Item>)
    | DropApproval(approvalId: string)
    | DropQuestion(key: QuestionKey, note: Item)

  predicate Fits(edit: Edit, items: seq<Item>) {
    edit.Replace? ==> edit.index < |items|
  }

  function Perform(items: seq<Item>, edit: Edit): seq<Item>
    requires Fits(edit, items)
  {
    match edit
    case Keep => items
    case Append(item) => items + [item]
    case Replace(index, item) => items[index := item]
    case Settle(run, tail) =>
      if tail.Some? then SettleTools(items, run) + [tail.value] else SettleTools(items, run)
    case DropApproval(id) => Filter(items, (item: Item) => !IsApproval(item, id))
    case DropQuestion(key, note) => Filter(items, (item: Item) => !IsQuestion(item, key)) + [note]
  }

  predicate IsApproval(item: Item, id: string) {
    item.ApprovalItem? && item.approvalId == id
  }

  predicate IsQuestion(item: Item, key: QuestionKey) {
    item.QuestionItem? && item.key == key
  }

  predicate IsTool(item: Item, tool: string, run: RunId) {
    item.ToolItem? && item.tool == tool && item.run == run
  }

  predicate IsRunningTool(item: Item, tool: string, run: RunId) {
    IsTool(item, tool, run) && item.status == ToolRunning
  }

  predicate RunsTool(item: Item, run: RunId) {
    item.ToolItem? && item.run == run && item.status == ToolRunning
  }

  /** A finished run has no running tool: every running card of `run` ends neutrally. */
  function SettleItem(item: Item, run: RunId): Item {
    if RunsTool(item, run) then item.(status := ToolFinished) else item
  }

  function SettleTools(items: seq<Item>, run: RunId): (r: seq<Item>)
    ensures |r| == |items|
    ensures forall k :: 0 <= k < |r| ==> r[k] == SettleItem(items[k], run)
  {
    seq(|items|, k requires 0 <= k < |items| => SettleItem(items[k], run))
  }

  function Filter(items: seq<Item>, keep: Item -> bool): (r: seq<Item>)
    ensures forall item :: item in r <==> item in items && keep(item)
  {
    if items == [] then []
    else
      var rest := Filter(items[..|items| - 1], keep);
      if keep(items[|items| - 1]) then rest + [items[|items| - 1]] else rest
  }

  /** The first index satisfying `p`, or `|items|` when there is none. */
  function FindFirst(items: seq<Item>, p: Item -> bool): (k: nat)
    ensures k <= |items|
    ensures k < |items| ==> p(items[k])
    ensures forall j :: 0 <= j < k ==> !p(items[j])
  {
    if items == [] then 0
    else
      var k := FindFirst(items[..|items| - 1], p);
      if k < |items| - 1 || p(items[|items| - 1]) then k else |items|
  }

  /** The last index satisfying `p`, or `|items|` when there is none. */
  function FindLast(items: seq<Item>, p: Item -> bool): (k: nat)
    ensures k <= |items|
    ensures k < |items| ==> p(items[k])
    ensures forall j :: 0 <= j < |items| && (k == |items| || k < j) ==> !p(items[j])
  {
    if items == [] then 0
    else if p(items[|items| - 1]) then |items| - 1
    else
      var k := FindLast(items[..|items| - 1], p);
      if k == |items| - 1 then |items| else k
  }

  // ----- text helpers

  function IndexOf(text: string, part: string): (k: int)
    ensures -1 <= k <= |text|
    ensures k >= 0 ==> part <= text[k..]
    ensures forall j :: 0 <= j < (if k < 0 then |text| else k) ==> !(part <= text[j..])
  {
    if part <= text then assert text[0..] == text; 0
    else if text == [] then -1
    else
      var k := IndexOf(text[1..], part);
      assert forall j :: 0 < j <= |text| ==> text[1..][j - 1..] == text[j..];
      if k < 0 then -1 else k + 1
  }

  predicate IsAcp(tool: string) { "acp:" <= tool }

  const SEPARATOR: string := [' ', '\U{00B7}', ' ']

  /** Human kind and action of a tool call; an ACP title carries both around a separator. */
  function ToolParts(tool: string, title: string, fallback: string): (string, string) {
    if IsAcp(tool) then
      var at := IndexOf(title, SEPARATOR);
      if at >= 0 then (title[..at], title[at + |SEPARATOR|..])
      else if title != "" then (title, title) else (fallback, fallback)
    else (tool, if title != "" then title else tool)
  }

  function TrimStart(text: string): (r: string)
    ensures |r| <= |text| && text[|text| - |r|..] == r && (r != "" ==> !White(r[0]))
    ensures forall k :: 0 <= k < |text| - |r| ==> White(text[k])
  {
    if text != "" && White(text[0]) then TrimStart(text[1..]) else text
  }

  predicate IsContextNote(text: string) { "=== CONTEXT" <= text }

  predicate IsMemoryNote(text: string) { "remembered:" <= TrimStart(text) }

  function LineCount(text: string): nat {
    if text == "" then 1 else (if text[0] == '\n' then 1 else 0) + LineCount(text[1..])
  }

  // ----- one event

  /**
    An event of a run this client is not showing.  With nothing on screen no event
    is foreign: it is adopted.
   */
  predicate IsForeign(s: Surface, run: RunId) {
    run != "" && s.activeRun.Some? && s.activeRun.value != "" && run != s.activeRun.value
  }

  function StreamKindOf(thought: bool): StreamKind { if thought then Thought else Assistant }

  function StreamModel(e: Event, run: RunId): Option<string> {
    if e.actor.Agent? && e.actor.run == run then e.actor.model else None
  }

  function StreamEdit(items: seq<Item>, e: Event, run: RunId, text: string, thought: bool): (r: Edit)
    ensures Fits(r, items)
  {
    if text == "" then Keep
    else
      var kind, model := StreamKindOf(thought), StreamModel(e, run);
      if items != [] && Extends(items[|items| - 1], kind, run, model)
      then
        var last := items[|items| - 1];
        Replace(|items| - 1, last.(streamed := last.streamed + text))
      else Append(StreamItem(kind, run, e.sequence, text, model, e.occurredAt))
  }

  predicate Extends(last: Item, kind: StreamKind, run: RunId, model: Option<string>) {
    last.StreamItem? && last.kind == kind && last.run == run && last.model == model
  }

  function ToolIndex(items: seq<Item>, tool: string, run: RunId): (k: nat)
    ensures k <= |items|
    ensures k < |items| ==> IsTool(items[k], tool, run)
    ensures forall j :: 0 <= j < k ==> !IsTool(items[j], tool, run)
  {
    FindFirst(items, (item: Item) => IsTool(item, tool, run))
  }

  /** The card a repeated ACP start refines, or `|items|`. */
  function RefinedTool(items: seq<Item>, tool: string, run: RunId): (k: nat)
    ensures k <= |items|
    ensures k < |items| ==> IsAcp(tool) && IsTool(items[k], tool, run)
    ensures IsAcp(tool) ==> forall j :: 0 <= j < k ==> !IsTool(items[j], tool, run)
  {
    if IsAcp(tool) then ToolIndex(items, tool, run) else |items|
  }

  function ToolStartEdit(items: seq<Item>, e: Event, run: RunId, tool: string, title: string): (r: Edit)
    ensures Fits(r, items)
    ensures r.Append? || r.Replace?
    ensures r.Replace? ==> IsAcp(tool) && IsTool(items[r.index], tool, run) && (forall j :: 0 <= j < r.index ==> !IsTool(items[j], tool, run))
    ensures r.Replace? ==> IsTool(r.item, tool, run) && r.item.status == items[r.index].status
    ensures r.Append? ==> IsRunningTool(r.item, tool, run) && (IsAcp(tool) ==> forall j :: 0 <= j < |items| ==> !IsTool(items[j], tool, run))
  {
    var (kind, shown) := ToolParts(tool, title, "Tool");
    var k := RefinedTool(items, tool, run);
    if k < |items| then Replace(k, items[k].(title := shown, toolKind := kind))
    else Append(ToolItem(e.sequence, tool, run, kind, shown, ToolRunning, "", "", e.occurredAt))
  }

  function ToolCompleteEdit(items: seq<Item>, run: RunId, tool: string, succeeded: bool,
                            message: string, artifact: string): (r: Edit)
    ensures Fits(r, items)
    ensures r.Replace? ==> items[r.index].ToolItem? && r.item.ToolItem?
    ensures r.Append? ==> r.item.ToolItem?
    ensures r.Keep? || r.Append? || r.Replace?
  {
    var k := FindLast(items, (item: Item) => IsRunningTool(item, tool, run));
    if k == |items| then Keep
    else
      Replace(k, items[k].(
        status := if succeeded then ToolSuccess else ToolError,
        artifact := if artifact != "" then artifact else items[k].artifact,
        result := if !succeeded && message != "" then message else items[k].result))
  }

  function ToolUpdateEdit(items: seq<Item>, run: RunId, tool: string, title: string): (r: Edit)
    ensures Fits(r, items)
    ensures r.Replace? ==> items[r.index].ToolItem? && r.item.ToolItem?
    ensures r.Append? ==> r.item.ToolItem?
    ensures r.Keep? || r.Append? || r.Replace?
  {
    var k := ToolIndex(items, tool, run);
    if title == "" || k == |items| then Keep
    else
      var (kind, shown) := ToolParts(tool, title, title);
      Replace(k, items[k].(title := shown, toolKind := kind))
  }

  function BudgetEdit(items: seq<Item>, e: Event, run: RunId, dimension: string, used: nat, limit: nat): (r: Edit)
    ensures Fits(r, items)
    ensures r.Replace? ==> items[r.index].BudgetItem? && r.item.BudgetItem?
    ensures r.Append? ==> r.item.BudgetItem?
    ensures r.Keep? || r.Append? || r.Replace?
  {
    if dimension == "Tokens" && limit > 0 && used * 5 < limit * 4 then Keep
    else
      var item := BudgetItem(run, dimension, used, limit, e.occurredAt);
      var k := FindFirst(items, (i: Item) => i.BudgetItem? && i.run == run && i.dimension == dimension);
      if k == |items| then Append(item) else Replace(k, item)
  }

  function QuestionKeyOf(questionId: string, sequence: nat): QuestionKey {
    if questionId != "" then ById(questionId) else BySequence(sequence)
  }

  function QuestionEdit(items: seq<Item>, e: Event, questionId: string, run: RunId, prompts: seq<string>): (r: Edit)
    ensures Fits(r, items)
    ensures r.Replace? ==> IsQuestion(items[r.index], QuestionKeyOf(questionId, e.sequence))
    ensures r.Append? || r.Replace?
    ensures r.item == QuestionItem(QuestionKeyOf(questionId, e.sequence), questionId, run, e.sequence, prompts, e.occurredAt)
  {
    var key := QuestionKeyOf(questionId, e.sequence);
    var card := QuestionItem(key, questionId, run, e.sequence, prompts, e.occurredAt);
    var k := FindFirst(items, (item: Item) => IsQuestion(item, key));
    if k == |items| then Append(card) else Replace(k, card)
  }

  /** Whose backstage row a note belongs to. */
  function OwnerOf(run: RunId): string { if run != "" then run else "session" }

  function NoteEdit(items: seq<Item>, e: Event, run: RunId, text: string): (r: Edit)
    ensures Fits(r, items)
    ensures r.Replace? ==> items[r.index].BackstageItem? && r.item.BackstageItem?
    ensures r.Replace? ==> items[r.index].owner == r.item.owner == OwnerOf(run)
    ensures r.Append? ==> r.item.NoteItem? || (r.item.BackstageItem? && r.item.owner == OwnerOf(run))
    ensures r.Keep? || r.Append? || r.Replace?
  {
    if text == "" then Keep
    else if IsContextNote(text) || IsMemoryNote(text) then
      var owner := OwnerOf(run);
      var lines := if IsContextNote(text) then Some(LineCount(text)) else None;
      var memory := if IsMemoryNote(text) then 1 else 0;
      var k := FindFirst(items, (item: Item) => item.BackstageItem? && item.owner == owner);
      if k == |items| then Append(BackstageItem(owner, lines, memory, [text], e.occurredAt))
      else
        var row := items[k];
        Replace(k, row.(contextLines := if lines.Some? then lines else row.contextLines,
                        memoryUpdates := row.memoryUpdates + memory,
                        raw := row.raw + [text]))
    else Append(NoteItem(e.sequence, text, e.occurredAt))
  }

  /** The objective a failure's Retry resubmits: the failed run's own one first. */
  function FailedObjective(s: Surface, run: RunId): Option<string> {
    if run != "" && run in s.objectivesByRun then Some(s.objectivesByRun[run])
    else if IsForeign(s, run) then None
    else s.activeObjective
  }

  /** A successful run adds no row; failures and cancellations announce themselves. */
  function EndRow(s: Surface, e: Event, run: RunId, d: Disposition): Option<Item> {
    match d
    case EndedCompleted => None
    case EndedFailed(reason) => Some(FailureItem(e.sequence, run, reason, FailedObjective(s, run), e.occurredAt))
    case EndedOther(kind, reason) => Some(RunEndItem(e.sequence, kind, reason, e.occurredAt))
  }

  function EditOf(s: Surface, items: seq<Item>, e: Event): (r: Edit)
    ensures Fits(r, items)
  {
    match e.body
    case RunStarted(run, objective) => Append(UserItem(e.sequence, objective, e.occurredAt))
    case ModelStreamDelta(run, text, thought) => StreamEdit(items, e, run, text, thought)
    case ToolStarted(run, tool, title) => ToolStartEdit(items, e, run, tool, title)
    case ToolCompleted(run, tool, ok, message, artifact) => ToolCompleteEdit(items, run, tool, ok, message, artifact)
    case ToolUpdated(run, tool, title) => ToolUpdateEdit(items, run, tool, title)
    case ModelRetrying(run, attempt, max, message, delay) =>
      Append(RetryItem(e.sequence, attempt, max, message, delay, e.occurredAt))
    case ToolDenied(run, summary) => Append(DeniedItem(e.sequence, run, summary, e.occurredAt))
    case BudgetWarning(run, dimension, used, limit) => BudgetEdit(items, e, run, dimension, used, limit)
    case ApprovalRequested(id, action) => Append(ApprovalItem(FromEvent(e.sequence), id, action, e.occurredAt))
    case ApprovalResolved(id) => DropApproval(id)
    case QuestionAsked(id, run, prompts) => QuestionEdit(items, e, id, run, prompts)
    case QuestionResolved(id, outcome) =>
      DropQuestion(ById(id), QuestionResolvedItem(e.sequence, outcome, e.occurredAt))
    case PatchProposed(run, artifact, summary) =>
      Append(PatchItem(e.sequence, run, artifact, summary, e.occurredAt))
    case NoteAppended(run, text) => NoteEdit(items, e, run, text)
    case RunCompleted(run, disposition) => Settle(run, EndRow(s, e, run, disposition))
    case RunStateChanged(run, state) => if Terminal(state) then Settle(run, None) else Keep
    case RunUsage(_, _) => Keep
    case PendingPromptsChanged(_) => Keep
    case Upkeep(_) => Keep
    case Unrendered(_) => Keep
  }

  /** After a tool returns: still waiting on a human if we were, else the latest running tool. */
  function AfterTool(s: Surface, items: seq<Item>): Activity {
    if s.activity.Waiting() then s.activity
    else
      var k := FindLast(items, (item: Item) => s.activeRun.Some? && RunsTool(item, s.activeRun.value));
      if k == |items| then Thinking
      else UsingTool(if items[k].title != "" then items[k].title else if items[k].tool != "" then items[k].tool else "Tool")
  }

  function StartStep(s: Surface, run: RunId, objective: string): Surface {
    var objectives := if run != "" && objective != "" then s.objectivesByRun[run := objective] else s.objectivesByRun;
    if IsForeign(s, run) then s.(objectivesByRun := objectives)
    else s.(activeRun := if run != "" then Some(run) else s.activeRun,
            isRunning := true,
            runState := Some(Queued),
            activity := Thinking,
            activeObjective := if objective != "" then Some(objective) else s.activeObjective,
            objectivesByRun := objectives,
            usage := None)
  }

  function ToolStartActivity(s: Surface, items: seq<Item>, run: RunId, tool: string, title: string): Activity {
    var k := RefinedTool(items, tool, run);
    if IsForeign(s, run) || (k < |items| && items[k].status != ToolRunning) then s.activity
    else UsingTool(if IsAcp(tool) then ToolParts(tool, title, "Tool").1 else tool)
  }

  function ToolUpdateActivity(s: Surface, items: seq<Item>, run: RunId, tool: string, title: string): Activity {
    var k := ToolIndex(items, tool, run);
    if title == "" || k == |items| then s.activity
    else if !IsForeign(s, run) && items[k].status == ToolRunning && s.activity.UsingTool?
            && (s.activity.tool == items[k].title || s.activity.tool == items[k].tool)
    then UsingTool(ToolParts(tool, title, title).1)
    else s.activity
  }

  /** The run that asked a question, read off its card; empty when there is no card. */
  function AskedBy(items: seq<Item>, questionId: string): RunId {
    var k := FindFirst(items, (item: Item) => IsQuestion(item, ById(questionId)));
    if k == |items| then "" else items[k].run
  }

  function ForgetObjective(objectives: map<RunId, string>, run: RunId): map<RunId, string> {
    if run == "" then objectives else objectives - {run}
  }

  function CompleteStep(s: Surface, run: RunId): Surface {
    var objectives := ForgetObjective(s.objectivesByRun, run);
    if IsForeign(s, run) then s.(objectivesByRun := objectives)
    else s.(isRunning := false, activeRun := None, runState := None, activity := Idle, objectivesByRun := objectives)
  }

  function LifecycleActivity(activity: Activity, state: Option<Lifecycle>): Activity {
    if state == Some(WaitingForApproval) then WaitingOnApproval
    else if state == Some(WaitingForUserInput) then WaitingOnQuestion
    else if state == Some(Paused) then Idle
    else if activity.Idle? && state == Some(Running) then Thinking
    else activity
  }

  function LifecycleStep(s: Surface, run: RunId, state: Option<Lifecycle>): Surface {
    if IsForeign(s, run) then s
    else if Terminal(state) then s.(isRunning := false, activeRun := None, runState := None, activity := Idle)
    else s.(activeRun := if s.activeRun.Some? then s.activeRun else if run != "" then Some(run) else None,
            isRunning := s.isRunning || state == Some(Running),
            runState := state,
            activity := LifecycleActivity(s.activity, state))
  }

  function SurfaceStep(s: Surface, items: seq<Item>, e: Event): Surface {
    match e.body
    case RunStarted(run, objective) => StartStep(s, run, objective)
    case ModelStreamDelta(run, text, _) =>
      if text == "" || IsForeign(s, run) then s else s.(activity := Streaming)
    case ToolStarted(run, tool, title) => s.(activity := ToolStartActivity(s, items, run, tool, title))
    case ToolCompleted(run, _, _, _, _) =>
      if IsForeign(s, run) then s else s.(activity := AfterTool(s, Perform(items, EditOf(s, items, e))))
    case ToolUpdated(run, tool, title) => s.(activity := ToolUpdateActivity(s, items, run, tool, title))
    case ModelRetrying(run, attempt, max, message, delay) =>
      if IsForeign(s, run) then s else s.(activity := Retrying(attempt, max, message, delay))
    case RunUsage(run, tokens) => if IsForeign(s, run) then s else s.(usage := Some(Usage(run, tokens)))
    case ApprovalRequested(_, _) => if s.isRunning then s.(activity := WaitingOnApproval) else s
    case ApprovalResolved(_) => if s.activity.Waiting() then s.(activity := Thinking) else s
    case QuestionAsked(_, run, _) =>
      if s.isRunning && !IsForeign(s, run) then s.(activity := WaitingOnQuestion) else s
    case QuestionResolved(id, _) =>
      if s.activity.Waiting() && !IsForeign(s, AskedBy(items, id)) then s.(activity := Thinking) else s
    case RunCompleted(run, _) => CompleteStep(s, run)
    case RunStateChanged(run, state) => LifecycleStep(s, run, state)
    case PendingPromptsChanged(prompts) => s.(pendingPrompts := prompts)
    case ToolDenied(_, _) => s
    case BudgetWarning(_, _, _, _) => s
    case PatchProposed(_, _, _) => s
    case NoteAppended(_, _) => s
    case Upkeep(_) => s
    case Unrendered(_) => s
  }

  function Apply(p: Projection, e: Event): Projection {
    Projection(SurfaceStep(p.surface, p.transcript, e),
               Perform(p.transcript, EditOf(p.surface, p.transcript, e)))
  }

  function Fold(p: Projection, events: seq<Event>): Projection {
    FoldLeft(Apply, p, events)
  }

  /** The projection a full replay of `events` yields. */
  function Replayed(events: seq<Event>): Projection { Fold(EMPTY_PROJECTION, events) }

  lemma FoldConcat(p: Projection, a: seq<Event>, b: seq<Event>)
    ensures Fold(p, a + b) == Fold(Fold(p, a), b)
  {
    FoldLeftConcat(Apply, p, a, b);
  }
}
